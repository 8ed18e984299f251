/** The conditions under which a deletion stays are exact: whenever one fails, there is a reachable
    deletion and a fair run after it in which a node that has settled takes the deleted record again. */
module TombstoneGcWitness {
  import opened Envelope
  import opened Node
  import opened Exchange
  import opened Protocol
  import opened SmallCluster
  import opened TombstoneGc

  /** Some fair run leads from `w0` to `w`, with at least those of `l` settled and exactly its lapses. */
  ghost predicate Reaches(p: Case, w0: World, w: World, l: Ledger) {
    exists run :: Leads(p, w0, run, w, l)
  }

  ghost predicate Leads(p: Case, w0: World, run: seq<Step>, w: World, l: Ledger) {
    && Valid(p.cfg, w0, run) && FairRun(p, w0, run) && Orderly(p.cfg, w0, run)
    && Exec(p.cfg, w0, run) == w && Within(l, LedgerAfter(p, w0, run))
  }

  predicate Within(few: Ledger, many: Ledger) {
    few.settled <= many.settled && few.lapsed == many.lapsed
  }

  lemma MoreSettled(p: Case, w: World, few: Ledger, many: Ledger, s: Step, w': World)
    requires Within(few, many)
    ensures Fair(p, w, few, s) ==> Fair(p, w, many, s)
    ensures Within(Noted(p, w, few, s, w'), Noted(p, w, many, s, w'))
  {
  }

  lemma ReachStep(p: Case, w0: World, w: World, l: Ledger, s: Step, l': Ledger)
    requires Reaches(p, w0, w, l) && Enabled(w, s) && Fair(p, w, l, s) && OnLink(w, s)
    requires Within(l', Noted(p, w, l, s, Next(p.cfg, w, s)))
    ensures Reaches(p, w0, Next(p.cfg, w, s), l')
  {
    var run :| Leads(p, w0, run, w, l);
    var longer := run + [s];
    assert Front(longer) == run && Last(longer) == s;
    MoreSettled(p, w, l, LedgerAfter(p, w0, run), s, Next(p.cfg, w, s));
    assert Leads(p, w0, longer, Next(p.cfg, w, s), l');
  }

  /** Any property of a state that fair steps keep; `Reaches` is the one it is used for. */
  type Reach = (World, Ledger) -> bool

  ghost predicate Closed(p: Case, reach: Reach) {
    forall w, l, s, l' |
        && reach(w, l) && Enabled(w, s) && Fair(p, w, l, s) && OnLink(w, s)
        && Within(l', Noted(p, w, l, s, Next(p.cfg, w, s))) ::
      reach(Next(p.cfg, w, s), l')
  }

  lemma Go(p: Case, reach: Reach, w: World, l: Ledger, s: Step, w': World, l': Ledger)
    requires Closed(p, reach) && reach(w, l) && Enabled(w, s) && Fair(p, w, l, s) && OnLink(w, s)
    requires Next(p.cfg, w, s) == w' && Within(l', Noted(p, w, l, s, w'))
    ensures reach(w', l')
  {
  }

  // ---- the cast: A, which settles; B and E, which pass the old record on; and C, its origin ----

  const E: NodeId := "E"

  /** The case studied: C deletes its record at time 0. */
  function Here(p: Case): Case {
    p.(c := C, lk := RECORD, v := TOMB.version, at := 0.0)
  }

  predicate OnStage(p: Case) {
    p == Here(p) && Sane(p)
  }

  predicate Knows(n: Node, peer: NodeId) {
    peer in n.sessions && n.sessions[peer].namespaces == D
  }

  function Both(i: NodeId, j: NodeId): map<NodeId, Peer> {
    Sessions(i, 0.0, j, 0.0)
  }

  predicate Holding(n: Node) {
    Get(n.foreign, KEY) == Some(ENV)
  }

  predicate Bare(n: Node) {
    KEY !in n.foreign
  }

  /** All four after the deletion, with A in the state `a`; B and E may send to each other and to A. */
  predicate Cast(w: World, a: Node) {
    && w.nodes.Keys == {A, B, E, C} && w.nodes[A] == a && a.id == A && w.nodes[C] == Owner(Deleted, Both(A, B))
    && w.nodes[B].id == B && w.nodes[E].id == E
    && Knows(w.nodes[B], E) && Knows(w.nodes[B], A) && Knows(w.nodes[E], B) && Knows(w.nodes[E], A)
  }

  predicate Pair(x: NodeId, y: NodeId) {
    (x == B && y == E) || (x == E && y == B)
  }

  // ---- single steps ----

  lemma Passes(p: Case, reach: Reach, w: World, l: Ledger, t: real)
    requires Closed(p, reach) && reach(w, l) && w.now <= t
    requires t >= p.at + p.settle ==> Accounted(p, w, l, t)
    ensures reach(w.(now := t), l)
  {
    Go(p, reach, w, l, Advance(t), w.(now := t), l);
  }

  lemma Sends(p: Case, reach: Reach, w: World, l: Ledger, x: NodeId, to: NodeId, env: Envelope)
    requires Closed(p, reach) && reach(w, l) && x in w.nodes && to in w.nodes && x != to
    requires Knows(w.nodes[x], to) && BuildFor(w.nodes[x], KEY) == Some(env)
    ensures reach(w.(net := w.net + {Msg(to, env, w.now)}), l)
  {
    assert Linked(w, x, to, KEY.dataset);
    Go(p, reach, w, l, Send(x, to, KEY), w.(net := w.net + {Msg(to, env, w.now)}), l);
  }

  /** Evicting C drops what C made and starts the cooldown. */
  function Evicted(p: Case, w: World, i: NodeId): World
    requires i in w.nodes
  {
    WithNode(w, Evict(p.cfg, w.nodes[i], {C}, w.now))
  }

  lemma Evicts(p: Case, reach: Reach, w: World, l: Ledger, i: NodeId)
    requires OnStage(p) && Closed(p, reach) && reach(w, l) && i in w.nodes
    ensures reach(Evicted(p, w, i), l.(settled := l.settled + {i}))
  {
    Go(p, reach, w, l, Disconnect(i, C), Evicted(p, w, i), l.(settled := l.settled + {i}));
  }

  function Reopened(w: World, i: NodeId): World
    requires i in w.nodes
  {
    WithNode(w, Open(w.nodes[i], C, D, w.now))
  }

  /** A node that opens a session with C before `early` lapses, */
  lemma Lapses(p: Case, reach: Reach, w: World, l: Ledger, i: NodeId)
    requires OnStage(p) && Closed(p, reach) && reach(w, l) && i in w.nodes && C in w.nodes && i != C
    requires !HoldsNew(p, w.nodes[i]) && w.now < p.early
    ensures reach(Reopened(w, i), Ledger(l.settled - {i}, l.lapsed[i := w.now]))
  {
    var l' := Ledger(l.settled - {i}, l.lapsed[i := w.now]);
    var s := OpenSession(i, C, D);
    assert Lapsing(p, w, s) == {i};
    assert Lapse(p, w, l, s).lapsed == l'.lapsed;
    Go(p, reach, w, l, s, Reopened(w, i), l');
  }

  /** and one that does so after `late` stays settled. */
  lemma ReopensLate(p: Case, reach: Reach, w: World, l: Ledger, i: NodeId)
    requires OnStage(p) && Closed(p, reach) && reach(w, l) && i in w.nodes && C in w.nodes && i != C
    requires w.now >= p.late
    ensures reach(Reopened(w, i), l)
  {
    Go(p, reach, w, l, OpenSession(i, C, D), Reopened(w, i), l);
  }

  function Arrived(w: World, m: Msg): World
    requires m.to in w.nodes
  {
    WithNode(w, w.nodes[m.to].(foreign := w.nodes[m.to].foreign[KEY := m.env]))
  }

  /** A message finds a node that holds nothing and does not suppress C. */
  lemma Arrives(p: Case, reach: Reach, w: World, l: Ledger, m: Msg)
    requires OnStage(p) && Closed(p, reach) && reach(w, l) && m in w.net && w.now <= m.sentAt + p.delay
    requires m.to in w.nodes && m.env.key == KEY && w.nodes[m.to].id != C && Bare(w.nodes[m.to])
    requires !Suppressed(w.nodes[m.to], C, w.now)
    ensures reach(Arrived(w, m), l)
  {
    assert Apply(w.nodes[m.to], m.env, w.now) == w.nodes[m.to].(foreign := w.nodes[m.to].foreign[KEY := m.env]);
    Go(p, reach, w, l, Deliver(m), Arrived(w, m), l);
  }

  // ---- passing the old record on ----

  /** `x` has lapsed just now, or is about to, and holds the old record; the others have settled. */
  predicate Holder(p: Case, w: World, l: Ledger, a: Node, x: NodeId, y: NodeId) {
    && Pair(x, y) && Cast(w, a) && Holding(w.nodes[x]) && Bare(w.nodes[y])
    && {A, y} <= l.settled && x in l.lapsed && l.lapsed[x] == w.now
  }

  lemma HolderAccounted(p: Case, w: World, l: Ledger, a: Node, x: NodeId, y: NodeId, t: real)
    requires OnStage(p) && Pair(x, y) && Cast(w, a) && {A, y} <= l.settled
    requires x in l.settled || (x in l.lapsed && t <= l.lapsed[x] + p.gap)
    ensures Accounted(p, w, l, t)
  {
  }

  /** `x` sends the old record and evicts C. */
  function HandedOver(p: Case, w: World, x: NodeId, to: NodeId): World
    requires x in w.nodes
  {
    Evicted(p, w.(net := w.net + {Msg(to, ENV, w.now)}), x)
  }

  lemma HandsOver(p: Case, reach: Reach, w: World, l: Ledger, a: Node, x: NodeId, y: NodeId, to: NodeId)
    requires OnStage(p) && Closed(p, reach) && reach(w, l) && Pair(x, y) && Cast(w, a) && Holding(w.nodes[x])
    requires to == y || to == A
    ensures var w' := HandedOver(p, w, x, to);
            && reach(w', l.(settled := l.settled + {x}))
            && Cast(w', a) && Bare(w'.nodes[x]) && w'.nodes[y] == w.nodes[y]
  {
    Sends(p, reach, w, l, x, to, ENV);
    Evicts(p, reach, w.(net := w.net + {Msg(to, ENV, w.now)}), l, x);
  }

  /** `y` lapses and takes what is on its way. */
  lemma Catches(p: Case, reach: Reach, w: World, l: Ledger, a: Node, x: NodeId, y: NodeId, m: Msg)
    requires OnStage(p) && Closed(p, reach) && reach(w, l) && Pair(x, y) && Cast(w, a)
    requires Bare(w.nodes[x]) && Bare(w.nodes[y]) && {A, x} <= l.settled && w.now < p.early
    requires m in w.net && m.to == y && m.env == ENV && w.now <= m.sentAt + p.delay
    ensures var w', l' := Arrived(Reopened(w, y), m), Ledger(l.settled - {y}, l.lapsed[y := w.now]);
            reach(w', l') && Holder(p, w', l', a, y, x) && w'.now == w.now
  {
    var l' := Ledger(l.settled - {y}, l.lapsed[y := w.now]);
    Lapses(p, reach, w, l, y);
    Arrives(p, reach, Reopened(w, y), l', m);
  }

  /** One round: `x` keeps the record for up to `gap`, and it travels for up to `delay`. */
  lemma Round(p: Case, reach: Reach, w: World, l: Ledger, a: Node, x: NodeId, y: NodeId, t: real)
    returns (w': World, l': Ledger)
    requires OnStage(p) && Closed(p, reach) && reach(w, l) && Holder(p, w, l, a, x, y)
    requires w.now <= t < p.early && t <= w.now + p.gap + p.delay
    ensures reach(w', l') && Holder(p, w', l', a, y, x) && w'.now == t
  {
    var s := if t <= w.now + p.gap then t else w.now + p.gap;
    HolderAccounted(p, w, l, a, x, y, s);
    Passes(p, reach, w, l, s);
    var w1, l1 := w.(now := s), l.(settled := l.settled + {x});
    HandsOver(p, reach, w1, l, a, x, y, y);
    var w2 := HandedOver(p, w1, x, y);
    HolderAccounted(p, w2, l1, a, x, y, t);
    Passes(p, reach, w2, l1, t);
    Catches(p, reach, w2.(now := t), l1, a, x, y, Msg(y, ENV, s));
    w', l' := Arrived(Reopened(w2.(now := t), y), Msg(y, ENV, s)), Ledger(l1.settled - {y}, l1.lapsed[y := t]);
  }

  /** At the start A and E have settled; B still holds the record. */
  predicate Opening(p: Case, w: World, l: Ledger, a: Node) {
    && Cast(w, a) && Holding(w.nodes[B]) && Bare(w.nodes[E])
    && {A, E} <= l.settled && w.now == 0.0
  }

  /** B lapses before it has settled. */
  lemma FirstHolder(p: Case, reach: Reach, w: World, l: Ledger, a: Node, t: real)
    returns (w': World, l': Ledger)
    requires OnStage(p) && Closed(p, reach) && reach(w, l) && Opening(p, w, l, a) && 0.0 <= t < p.settle
    ensures reach(w', l') && Holder(p, w', l', a, B, E) && w'.now == t
  {
    Passes(p, reach, w, l, t);
    VersionOrder(ENV.version, TOMB.version, ENV.version);
    Lapses(p, reach, w.(now := t), l, B);
    w', l' := Reopened(w.(now := t), B), Ledger(l.settled - {B}, l.lapsed[B := t]);
  }

  /** With enough rounds somebody holds the record at any time before `early`. */
  lemma {:induction false} SomeHolder(p: Case, reach: Reach, w: World, l: Ledger, a: Node, t: real, n: nat)
    returns (w': World, l': Ledger, x: NodeId, y: NodeId)
    requires OnStage(p) && Closed(p, reach) && reach(w, l) && Opening(p, w, l, a)
    requires 0.0 <= t < p.early && t <= n as real * (p.gap + p.delay)
    ensures reach(w', l') && Holder(p, w', l', a, x, y) && w'.now == t
    decreases n
  {
    if t < p.settle {
      w', l' := FirstHolder(p, reach, w, l, a, t);
      x, y := B, E;
    } else {
      var round := p.gap + p.delay;
      assert n > 0 by { assert 0 as real * round == 0.0; }
      assert n as real * round == (n - 1) as real * round + round;
      w', l', x, y := SomeHolder(p, reach, w, l, a, if t <= round then 0.0 else t - round, n - 1);
      w', l' := Round(p, reach, w', l', a, x, y, t);
      x, y := y, x;
    }
  }

  lemma EnoughRounds(t: real, round: real) returns (n: nat)
    requires t >= 0.0 && round > 0.0
    ensures t <= n as real * round
  {
    n := (t / round).Floor + 1;
    assert t == t / round * round;
    assert t / round * round <= n as real * round;
  }

  // ---- until just before the horizon ----

  /** The last time before `early` from which a holder may keep the record until `s`. */
  function HoldingSince(p: Case, s: real): real {
    var halfway := (s - p.gap + p.early) / 2.0;
    if s < p.early then s else if halfway >= 0.0 then halfway else 0.0
  }

  /** At any time `s` before nobody holds the record any more, somebody still does. */
  lemma StillHeld(p: Case, reach: Reach, w: World, l: Ledger, a: Node, s: real)
    returns (w': World, l': Ledger, x: NodeId, y: NodeId)
    requires OnStage(p) && Closed(p, reach) && reach(w, l) && Opening(p, w, l, a) && 0.0 <= s < Done(p)
    ensures reach(w', l') && Pair(x, y) && Cast(w', a) && Holding(w'.nodes[x]) && {A, y} <= l'.settled && w'.now == s
  {
    if s < p.settle {
      Passes(p, reach, w, l, s);
      w', l', x, y := w.(now := s), l, B, E;
    } else {
      var t := HoldingSince(p, s);
      var n := EnoughRounds(t, p.gap + p.delay);
      w', l', x, y := SomeHolder(p, reach, w, l, a, t, n);
      HolderAccounted(p, w', l', a, x, y, s);
      Passes(p, reach, w', l', s);
      w' := w'.(now := s);
    }
  }

  /** At the time `t`, before the horizon, an old version is due at A although everybody has settled. */
  predicate Due(p: Case, w: World, l: Ledger, a: Node, m: Msg) {
    && Cast(w, a) && {A, B, E} <= l.settled
    && m in w.net && m.to == A && m.env == ENV && w.now <= m.sentAt + p.delay
  }

  lemma Underway(p: Case, reach: Reach, w: World, l: Ledger, a: Node, t: real)
    returns (w': World, l': Ledger, m: Msg)
    requires OnStage(p) && Closed(p, reach) && reach(w, l) && Opening(p, w, l, a) && 0.0 <= t < Horizon(p)
    ensures reach(w', l') && Due(p, w', l', a, m) && w'.now == t
  {
    var s := if t <= p.delay then 0.0 else t - p.delay;
    var x, y;
    w', l', x, y := StillHeld(p, reach, w, l, a, s);
    HandsOver(p, reach, w', l', a, x, y, A);
    w', l', m := HandedOver(p, w', x, A), l'.(settled := l'.settled + {x}), Msg(A, ENV, s);
    HolderAccounted(p, w', l', a, x, y, t);
    Passes(p, reach, w', l', t);
    w' := w'.(now := t);
  }

  // ---- how A, which has settled, takes it ----

  /** A state a fair run leads to in which A has settled and holds the deleted record. */
  predicate Revived(p: Case, w: World, l: Ledger) {
    A in w.nodes && A in l.settled && HoldsOld(p, w.nodes[A])
  }

  lemma Takes(p: Case, reach: Reach, w: World, l: Ledger, m: Msg)
    requires OnStage(p) && Closed(p, reach) && reach(w, l) && A in w.nodes
    requires Due(p, w, l, w.nodes[A], m)
    requires Bare(w.nodes[A]) && !Suppressed(w.nodes[A], C, w.now)
    ensures reach(Arrived(w, m), l) && Revived(p, Arrived(w, m), l)
  {
    Arrives(p, reach, w, l, m);
  }

  /** The cooldown ends before the horizon. */
  lemma CooldownTooShort(p: Case, reach: Reach, w: World, l: Ledger, a: Node)
    returns (w': World, l': Ledger)
    requires OnStage(p) && Closed(p, reach) && reach(w, l) && Opening(p, w, l, a)
    requires Bare(a) && C in a.evictedUntil && a.evictedUntil[C] == p.cfg.Retention()
    requires p.cfg.Retention() < Horizon(p)
    ensures reach(w', l') && Revived(p, w', l')
  {
    var m;
    w', l', m := Underway(p, reach, w, l, a, p.cfg.Retention());
    Takes(p, reach, w', l', m);
    w' := Arrived(w', m);
  }

  /** A reopens its session with C before the horizon, and does not have to make that good. */
  lemma ReopensTooEarly(p: Case, reach: Reach, w: World, l: Ledger, a: Node)
    returns (w': World, l': Ledger)
    requires OnStage(p) && Closed(p, reach) && reach(w, l) && Opening(p, w, l, a) && Bare(a)
    requires p.late < Horizon(p)
    ensures reach(w', l') && Revived(p, w', l')
  {
    var m;
    w', l', m := Underway(p, reach, w, l, a, p.late);
    ReopensLate(p, reach, w', l', A);
    w' := Reopened(w', A);
    Takes(p, reach, w', l', m);
    w' := Arrived(w', m);
  }

  lemma Collects(p: Case, reach: Reach, w: World, l: Ledger, a: Node)
    requires OnStage(p) && Closed(p, reach) && reach(w, l) && Cast(w, a)
    requires a.tombstones == map[] && a.foreign == One(Some(TOMB))
    requires (p.cfg.RetentionMs() + 1) as real <= w.now * 1000.0 + p.skew
    ensures reach(WithNode(w, a.(foreign := map[])), l)
  {
    var wall := TOMB.version.ms + p.cfg.RetentionMs() + 1;
    assert Expired(p.cfg, TOMB.version.ms, wall);
    assert GcForeign(p.cfg, a.foreign, wall) == map[];
    Go(p, reach, w, l, Collect(A, wall), WithNode(w, a.(foreign := map[])), l);
  }

  /** A fast clock collects the tombstone before the horizon. */
  lemma ClockTooFast(p: Case, reach: Reach, w: World, l: Ledger, a: Node)
    returns (w': World, l': Ledger)
    requires OnStage(p) && Closed(p, reach) && reach(w, l) && Opening(p, w, l, a)
    requires a.tombstones == map[] && a.foreign == One(Some(TOMB)) && a.evictedUntil == map[]
    requires (p.cfg.RetentionMs() + 1) as real - p.skew < Horizon(p) * 1000.0
    ensures reach(w', l') && Revived(p, w', l')
  {
    var due := ((p.cfg.RetentionMs() + 1) as real - p.skew) / 1000.0;
    var m;
    w', l', m := Underway(p, reach, w, l, a, if due >= 0.0 then due else 0.0);
    Collects(p, reach, w', l', a);
    w' := WithNode(w', a.(foreign := map[]));
    Takes(p, reach, w', l', m);
    w' := Arrived(w', m);
  }

  // ---- from rest to the deletion ----

  /** C at a stage of its record's life; B may hold the record; A and E hold nothing. */
  function Scene(
      holds: Option<Envelope>, stage: Stage, sb: map<NodeId, Peer>, se: map<NodeId, Peer>, sc: map<NodeId, Peer>,
      net: set<Msg>, built: set<Envelope>): World
  {
    Four(Replica(A, None, map[], map[]), Replica(B, holds, sb, map[]), Replica(E, None, se, map[]), Owner(stage, sc),
         net, built)
  }

  function Four(a: Node, b: Node, e: Node, c: Node, net: set<Msg>, built: set<Envelope>): World {
    World(map[A := a, B := b, E := e, C := c], net, 0.0, built)
  }

  lemma SetOne(a: Node, b: Node, e: Node, c: Node, net: set<Msg>, built: set<Envelope>, n: Node)
    ensures var w := WithNode(Four(a, b, e, c, net, built), n);
            && (n.id == A ==> w == Four(n, b, e, c, net, built)) && (n.id == B ==> w == Four(a, n, e, c, net, built))
            && (n.id == E ==> w == Four(a, b, n, c, net, built)) && (n.id == C ==> w == Four(a, b, e, n, net, built))
  {
    var nodes := map[A := a, B := b, E := e, C := c];
    assert nodes[A := n] == map[A := n, B := b, E := e, C := c];
    assert nodes[B := n] == map[A := a, B := n, E := e, C := c];
    assert nodes[E := n] == map[A := a, B := b, E := n, C := c];
    assert nodes[C := n] == map[A := a, B := b, E := e, C := n];
  }

  /** A step of one node leads from one four to another. */
  lemma FourNext(cfg: Config, w: World, s: Step, n: Node, built: set<Envelope>, w': World)
    requires Reachable(cfg, w) && Enabled(w, s) && !s.Send? && Next(cfg, w, s) == WithNode(w, n).(built := built)
    requires WithNode(w, n).(built := built) == w'
    ensures Reachable(cfg, w')
  {
    ReachableNext(cfg, w, s);
  }

  /** All four at rest: nobody knows anybody, nothing is registered. */
  function AllAtRest(): World {
    Scene(None, Fresh, map[], map[], map[], {}, {})
  }

  /** C's record is there; then the sessions are opened. */
  function Meeting(sb: map<NodeId, Peer>, se: map<NodeId, Peer>, sc: map<NodeId, Peer>): World {
    Scene(None, Created, sb, se, sc, {}, {ENV})
  }

  const SENT: Msg := Msg(B, ENV, 0.0)

  /** The record has reached B. */
  function Spread(): World {
    Scene(Some(ENV), Created, Both(A, E), Both(A, B), Both(A, B), {SENT}, {ENV})
  }

  /** C has deleted it. */
  function Gone(): World {
    Scene(Some(ENV), Deleted, Both(A, E), Both(A, B), Both(A, B), {SENT}, {ENV, TOMB})
  }

  predicate AtEase(n: Node) {
    && n.foreign == map[] && n.localVersions == map[] && n.tombstones == map[]
    && n.disk == Saved(n.clock, map[], map[])
  }

  lemma AtEaseInit(w: World)
    requires w.net == {} && w.built == {} && forall i | i in w.nodes :: w.nodes[i].id == i && AtEase(w.nodes[i])
    ensures Init(w)
  {
  }

  lemma AllAtRestInit()
    ensures Init(AllAtRest())
  {
    AtEaseInit(AllAtRest());
  }

  lemma Registration(w: World)
    requires w == AllAtRest()
    ensures Publish(w, Mutate(w.nodes[C], 1, RECORD, Put("x")), RECORD)
         == WithNode(w, Owner(Created, map[])).(built := {ENV})
  {
    var n := Mutate(Owner(Fresh, map[]), 1, RECORD, Put("x"));
    assert n == Owner(Created, map[]);
    OwnerServesIts(Created, map[]);
    assert BuildLocal(n, RECORD) == BuildFor(n, KEY) == Some(ENV);
    assert w.built + {ENV} == {ENV};
  }

  lemma Registers(cfg: Config)
    ensures Reachable(cfg, Meeting(map[], map[], map[]))
  {
    AllAtRestInit();
    AtRestIsReachable(cfg, AllAtRest());
    Registration(AllAtRest());
    var none: map<NodeId, Peer> := map[];
    SetOne(Replica(A, None, none, map[]), Replica(B, None, none, map[]), Replica(E, None, none, map[]),
           Owner(Fresh, none),
           {}, {}, Owner(Created, none));
    FourNext(cfg, AllAtRest(), LocalChange(C, 1, RECORD, Put("x")), Owner(Created, none), {ENV},
        Meeting(none, none, none));
  }

  lemma GreetC(cfg: Config, sb: map<NodeId, Peer>, se: map<NodeId, Peer>, sc: map<NodeId, Peer>, peer: NodeId)
    requires Reachable(cfg, Meeting(sb, se, sc)) && peer in {A, B, E}
    ensures Reachable(cfg, Meeting(sb, se, Peered(sc, peer, 0.0)))
  {
    var n := Owner(Created, Peered(sc, peer, 0.0));
    OwnerOpens(Created, sc, peer, 0.0);
    SetOne(Replica(A, None, map[], map[]), Replica(B, None, sb, map[]), Replica(E, None, se, map[]), Owner(Created, sc),
           {}, {ENV}, n);
    Greet(cfg, Meeting(sb, se, sc), C, peer, n);
  }

  lemma GreetB(cfg: Config, sb: map<NodeId, Peer>, se: map<NodeId, Peer>, sc: map<NodeId, Peer>, peer: NodeId)
    requires Reachable(cfg, Meeting(sb, se, sc)) && peer in {A, E, C}
    ensures Reachable(cfg, Meeting(Peered(sb, peer, 0.0), se, sc))
  {
    var n := Replica(B, None, Peered(sb, peer, 0.0), map[]);
    OpensAnew(B, sb, peer);
    SetOne(Replica(A, None, map[], map[]), Replica(B, None, sb, map[]), Replica(E, None, se, map[]), Owner(Created, sc),
           {}, {ENV}, n);
    Greet(cfg, Meeting(sb, se, sc), B, peer, n);
  }

  lemma GreetE(cfg: Config, sb: map<NodeId, Peer>, se: map<NodeId, Peer>, sc: map<NodeId, Peer>, peer: NodeId)
    requires Reachable(cfg, Meeting(sb, se, sc)) && peer in {A, B, C}
    ensures Reachable(cfg, Meeting(sb, Peered(se, peer, 0.0), sc))
  {
    var n := Replica(E, None, Peered(se, peer, 0.0), map[]);
    OpensAnew(E, se, peer);
    SetOne(Replica(A, None, map[], map[]), Replica(B, None, sb, map[]), Replica(E, None, se, map[]), Owner(Created, sc),
           {}, {ENV}, n);
    Greet(cfg, Meeting(sb, se, sc), E, peer, n);
  }

  lemma OpensAnew(id: NodeId, sessions: map<NodeId, Peer>, peer: NodeId)
    ensures Open(Replica(id, None, sessions, map[]), peer, D, 0.0)
         == Replica(id, None, Peered(sessions, peer, 0.0), map[])
  {
    ReplicaOpens(id, None, sessions, map[], peer, 0.0);
    var none: map<NodeId, real> := map[];
    assert none - {peer} == none;
  }

  /** `i` opens a session with `peer`. */
  lemma Greet(cfg: Config, w: World, i: NodeId, peer: NodeId, n: Node)
    requires Reachable(cfg, w) && i in w.nodes && peer in w.nodes && i != peer
    requires n == Open(w.nodes[i], peer, D, w.now)
    ensures Reachable(cfg, WithNode(w, n))
  {
    ReachableNext(cfg, w, OpenSession(i, peer, D));
  }

  lemma PeeredBoth(i: NodeId, j: NodeId)
    ensures Peered(Peered(map[], i, 0.0), j, 0.0) == Both(i, j)
  {
  }

  lemma Met(cfg: Config)
    ensures Reachable(cfg, Meeting(Both(A, E), Both(A, B), Both(A, B)))
  {
    var none: map<NodeId, Peer> := map[];
    PeeredBoth(A, B);
    PeeredBoth(A, E);
    Registers(cfg);
    GreetC(cfg, none, none, none, A);
    GreetC(cfg, none, none, Peered(none, A, 0.0), B);
    GreetB(cfg, none, none, Both(A, B), A);
    GreetB(cfg, Peered(none, A, 0.0), none, Both(A, B), E);
    GreetE(cfg, Both(A, E), none, Both(A, B), A);
    GreetE(cfg, Both(A, E), Peered(none, A, 0.0), Both(A, B), B);
  }

  /** B is served the record, */
  lemma Served(cfg: Config)
    ensures Reachable(cfg, Meeting(Both(A, E), Both(A, B), Both(A, B)).(net := {SENT}))
  {
    var w, s := Meeting(Both(A, E), Both(A, B), Both(A, B)), Send(C, B, KEY);
    Met(cfg);
    OwnerServesIts(Created, Both(A, B));
    assert Linked(w, C, B, KEY.dataset);
    assert w.net + {SENT} == {SENT};
    ReachableNext(cfg, w, s);
  }

  /** and stores it. */
  lemma Spreads(cfg: Config)
    ensures Reachable(cfg, Spread())
  {
    var w, n := Meeting(Both(A, E), Both(A, B), Both(A, B)).(net := {SENT}), Replica(B, Some(ENV), Both(A, E), map[]);
    Served(cfg);
    assert Apply(w.nodes[B], ENV, 0.0) == n;
    SetOne(Replica(A, None, map[], map[]), w.nodes[B], Replica(E, None, Both(A, B), map[]), Owner(Created, Both(A, B)),
           {SENT}, {ENV}, n);
    FourNext(cfg, w, Deliver(SENT), n, {ENV}, Spread());
  }

  lemma Withdrawal(w: World)
    requires w == Spread()
    ensures Publish(w, Mutate(w.nodes[C], 2, RECORD, Delete), RECORD)
         == WithNode(w, Owner(Deleted, Both(A, B))).(built := {ENV, TOMB})
  {
    var n := Mutate(Owner(Created, Both(A, B)), 2, RECORD, Delete);
    assert n == Owner(Deleted, Both(A, B));
    OwnerServesIts(Deleted, Both(A, B));
    assert BuildLocal(n, RECORD) == BuildFor(n, KEY) == Some(TOMB);
    assert w.built + {TOMB} == {ENV, TOMB};
  }

  lemma Deletes(cfg: Config)
    ensures Reachable(cfg, Gone())
  {
    var n := Owner(Deleted, Both(A, B));
    Spreads(cfg);
    Withdrawal(Spread());
    SetOne(Replica(A, None, map[], map[]), Replica(B, Some(ENV), Both(A, E), map[]),
           Replica(E, None, Both(A, B), map[]),
           Owner(Created, Both(A, B)), {SENT}, {ENV, TOMB}, n);
    FourNext(cfg, Spread(), LocalChange(C, 2, RECORD, Delete), n, {ENV, TOMB}, Gone());
  }

  lemma GoneIsDeletion(p: Case)
    ensures Reachable(p.cfg, Gone()) && JustDeleted(Here(p), Gone())
  {
    Deletes(p.cfg);
    ReachableInv(p.cfg, Gone());
  }

  // ---- from the deletion to the opening ----

  const NOTHING: Ledger := Ledger({}, map[])

  /** A and E evict C. */
  lemma BothEvict(p: Case, reach: Reach) returns (w: World, l: Ledger, a: Node)
    requires OnStage(p) && Closed(p, reach) && reach(Gone(), NOTHING)
    ensures reach(w, l) && Opening(p, w, l, a)
    ensures a == Replica(A, None, map[], map[C := p.cfg.Retention()])
  {
    Evicts(p, reach, Gone(), NOTHING, A);
    var w1, l1 := Evicted(p, Gone(), A), NOTHING.(settled := NOTHING.settled + {A});
    Evicts(p, reach, w1, l1, E);
    w, l := Evicted(p, w1, E), l1.(settled := l1.settled + {E});
    a := w.nodes[A];
  }

  /** What C sends of its deletion settles A. */
  lemma ALearns(p: Case, reach: Reach) returns (w: World, l: Ledger)
    requires OnStage(p) && Closed(p, reach) && reach(Gone(), NOTHING)
    ensures reach(w, l) && l == Ledger({A}, map[]) && w.now == 0.0
    ensures w.nodes == Gone().nodes[A := Replica(A, Some(TOMB), map[], map[])]
  {
    var m := Msg(A, TOMB, 0.0);
    OwnerServesIts(Deleted, Both(A, B));
    Sends(p, reach, Gone(), NOTHING, C, A, TOMB);
    var w1 := Gone().(net := Gone().net + {m});
    w, l := Arrived(w1, m), Ledger({A}, map[]);
    assert w.nodes[A] == Replica(A, Some(TOMB), map[], map[]);
    assert Apply(w1.nodes[A], TOMB, 0.0) == w.nodes[A];
    VersionOrder(TOMB.version, TOMB.version, TOMB.version);
    assert HoldsNew(p, w.nodes[A]);
    Go(p, reach, w1, NOTHING, Deliver(m), w, l);
  }

  lemma LearnsAndEvicts(p: Case, reach: Reach) returns (w: World, l: Ledger, a: Node)
    requires OnStage(p) && Closed(p, reach) && reach(Gone(), NOTHING)
    ensures reach(w, l) && Opening(p, w, l, a)
    ensures a.tombstones == map[] && a.foreign == One(Some(TOMB)) && a.evictedUntil == map[]
  {
    w, l := ALearns(p, reach);
    a := w.nodes[A];
    Evicts(p, reach, w, l, E);
    w, l := Evicted(p, w, E), l.(settled := l.settled + {E});
  }

  // ---- between an OPEN and its reconcile ----

  /** Three fair steps of A at one instant: it opens a session with C, */
  ghost predicate LetsIn(p: Case, w: World, l: Ledger, m: Msg) {
    var s := OpenSession(A, C, D);
    && Enabled(w, s) && Fair(p, w, l, s)
    && TakesUntilReconciled(p, Next(p.cfg, w, s), Noted(p, w, l, s, Next(p.cfg, w, s)), m)
  }

  /** takes the old record that was on its way, */
  ghost predicate TakesUntilReconciled(p: Case, w: World, l: Ledger, m: Msg) {
    && Enabled(w, Deliver(m)) && Fair(p, w, l, Deliver(m))
    && OldUntilReconciled(p, Next(p.cfg, w, Deliver(m)))
  }

  /** and reconciles with C. */
  ghost predicate OldUntilReconciled(p: Case, w: World) {
    && A in w.nodes && HoldsOld(p, w.nodes[A])
    && Enabled(w, Reconcile(A, C)) && HoldsNew(p, Next(p.cfg, w, Reconcile(A, C)).nodes[A])
  }

  /** A with a session with C only. */
  function Alone(now: real, holds: Option<Envelope>): Node {
    Replica(A, holds, map[C := Peer(D, now)], map[])
  }

  lemma OpensAfterEviction(until: real, now: real)
    ensures Open(Replica(A, None, map[], map[C := until]), C, D, now) == Alone(now, None)
  {
    ReplicaOpens(A, None, map[], map[C := until], C, now);
    var cooling := map[C := until];
    assert cooling - {C} == map[];
  }

  lemma ReconcileCleans(p: Case, w: World)
    requires OnStage(p) && A in w.nodes && C in w.nodes && w.nodes[A] == Alone(w.now, Some(ENV))
    requires w.nodes[C] == Owner(Deleted, Both(A, B))
    ensures OldUntilReconciled(p, w)
  {
    var s := ReplicaReconciles(p.cfg, w, A, Some(ENV), map[C := Peer(D, w.now)], Deleted, Both(A, B));
    VersionOrder(TOMB.version, TOMB.version, TOMB.version);
    assert Better(Some(ENV), OwnerServes(Deleted)) == Some(TOMB);
  }

  lemma TakesThenReconciles(p: Case, w: World, l: Ledger, m: Msg)
    requires OnStage(p) && A in w.nodes && C in w.nodes && w.nodes[A] == Alone(w.now, None)
    requires w.nodes[C] == Owner(Deleted, Both(A, B))
    requires m in w.net && m.to == A && m.env == ENV && w.now <= m.sentAt + p.delay
    ensures TakesUntilReconciled(p, w, l, m)
  {
    var w' := WithNode(w, Alone(w.now, Some(ENV)));
    ReconcileCleans(p, w');
    assert Next(p.cfg, w, Deliver(m)) == w';
  }

  lemma DueIsLetIn(p: Case, w: World, l: Ledger, m: Msg, until: real)
    requires OnStage(p) && Due(p, w, l, Replica(A, None, map[], map[C := until]), m) && w.now < p.early
    ensures LetsIn(p, w, l, m)
  {
    var s := OpenSession(A, C, D);
    OpensAfterEviction(until, w.now);
    var w1 := WithNode(w, Alone(w.now, None));
    assert Next(p.cfg, w, s) == w1;
    TakesThenReconciles(p, w1, Noted(p, w, l, s, w1), m);
  }

  lemma DueOnceSettled(q: Case, reach: Reach) returns (w: World, l: Ledger, m: Msg)
    requires OnStage(q) && Closed(q, reach) && reach(Gone(), NOTHING) && q.delay > 0.0 && q.settle < q.early
    ensures reach(w, l) && w.now >= q.settle && {A, B, E} <= l.settled && LetsIn(q, w, l, m)
  {
    var a;
    w, l, a := BothEvict(q, reach);
    w, l, m := Underway(q, reach, w, l, a, q.settle);
    DueIsLetIn(q, w, l, m, q.cfg.Retention());
  }

  /** When messages take time, an OPEN lets an old record in even when everybody had settled long ago,
      and its reconcile takes it out again: between the two a node is not protected. */
  lemma OpenBeforeReconcile(p: Case) returns (run: seq<Step>, w: World, l: Ledger, m: Msg)
    requires Sane(p) && p.delay > 0.0 && p.settle < p.early
    ensures Reachable(p.cfg, Gone()) && JustDeleted(Here(p), Gone())
    ensures Leads(Here(p), Gone(), run, w, l) && w.now >= p.settle && {A, B, E} <= l.settled
    ensures LetsIn(Here(p), w, l, m)
  {
    GoneIsDeletion(p);
    var q := Here(p);
    var reach: Reach := (w, l) => Reaches(q, Gone(), w, l);
    ReachesClosed(q, reach);
    w, l, m := DueOnceSettled(q, reach);
    run :| Leads(q, Gone(), run, w, l);
  }

  // ---- the exact condition ----

  /** Whatever is deleted, whenever, and whatever happens afterwards: a node that has settled, and has
      not lapsed since, holds no version from before the deletion. */
  ghost predicate NeverRevived(p: Case) {
    forall c, lk, v, at, w, run, i ::
      Reachable(p.cfg, w) && Protected(p.(c := c, lk := lk, v := v, at := at), w, run, i) ==>
        !HoldsOld(p.(c := c, lk := lk, v := v, at := at), Exec(p.cfg, w, run).nodes[i])
  }

  /** A deletion in `w`, a fair and orderly run after it, and a node that has settled at its end. */
  ghost predicate Protected(q: Case, w: World, run: seq<Step>, i: NodeId) {
    && JustDeleted(q, w) && Valid(q.cfg, w, run) && FairRun(q, w, run) && Orderly(q.cfg, w, run)
    && i in Exec(q.cfg, w, run).nodes && i in LedgerAfter(q, w, run).settled
  }

  lemma RevivalRefutes(p: Case, run: seq<Step>, w: World, l: Ledger)
    requires Leads(Here(p), Gone(), run, w, l) && Revived(Here(p), w, l)
    ensures !NeverRevived(p)
  {
    GoneIsDeletion(p);
    assert Protected(p.(c := C, lk := RECORD, v := TOMB.version, at := 0.0), Gone(), run, A);
  }

  /** Whichever clause fails. */
  lemma SomeRevival(q: Case, reach: Reach) returns (w: World, l: Ledger)
    requires OnStage(q) && !Enough(q) && Closed(q, reach) && reach(Gone(), NOTHING)
    ensures reach(w, l) && Revived(q, w, l)
  {
    var a;
    if q.cfg.Retention() < Horizon(q) || q.late < Horizon(q) {
      w, l, a := BothEvict(q, reach);
      if q.late < Horizon(q) {
        w, l := ReopensTooEarly(q, reach, w, l, a);
      } else {
        w, l := CooldownTooShort(q, reach, w, l, a);
      }
    } else {
      w, l, a := LearnsAndEvicts(q, reach);
      w, l := ClockTooFast(q, reach, w, l, a);
    }
  }

  lemma ReachesClosed(q: Case, reach: Reach)
    requires forall w, l :: reach(w, l) <==> Reaches(q, Gone(), w, l)
    ensures Closed(q, reach) && reach(Gone(), NOTHING)
  {
    assert Leads(q, Gone(), [], Gone(), NOTHING);
    forall w, l, s, l' |
        && reach(w, l) && Enabled(w, s) && Fair(q, w, l, s) && OnLink(w, s)
        && Within(l', Noted(q, w, l, s, Next(q.cfg, w, s)))
      ensures reach(Next(q.cfg, w, s), l')
    {
      ReachStep(q, Gone(), w, l, s, l');
    }
  }

  lemma NotEnoughRevives(p: Case)
    requires Sane(p) && !Enough(p)
    ensures !NeverRevived(p)
  {
    var q := Here(p);
    var reach: Reach := (w, l) => Reaches(q, Gone(), w, l);
    ReachesClosed(q, reach);
    var w, l := SomeRevival(q, reach);
    var run :| Leads(q, Gone(), run, w, l);
    RevivalRefutes(p, run, w, l);
  }

  /** Garbage collection never revives a deleted record if and only if the retention, the clocks and
      the lapses that are not made good leave the deletion in force until everything from before it
      is gone. */
  lemma NeverRevivedIffEnough(p: Case)
    requires Sane(p)
    ensures NeverRevived(p) <==> Enough(p)
  {
    if Enough(p) {
      forall c, lk, v, at, w, run, i |
          Reachable(p.cfg, w) && Protected(p.(c := c, lk := lk, v := v, at := at), w, run, i)
        ensures !HoldsOld(p.(c := c, lk := lk, v := v, at := at), Exec(p.cfg, w, run).nodes[i])
      {
        NoRevival(p.(c := c, lk := lk, v := v, at := at), w, run, i);
      }
    } else {
      NotEnoughRevives(p);
    }
  }

  // ---- when it is gone everywhere ----

  /** From `d` after the deletion on, nobody holds a version from before it. */
  ghost predicate GoneBy(p: Case, d: real) {
    forall c, lk, v, at, w, run, i ::
      Reachable(p.cfg, w) && Later(p.(c := c, lk := lk, v := v, at := at), w, run, i, d) ==>
        !HoldsOld(p.(c := c, lk := lk, v := v, at := at), Exec(p.cfg, w, run).nodes[i])
  }

  ghost predicate Later(q: Case, w: World, run: seq<Step>, i: NodeId, d: real) {
    && JustDeleted(q, w) && Valid(q.cfg, w, run) && FairRun(q, w, run) && Orderly(q.cfg, w, run)
    && i in Exec(q.cfg, w, run).nodes && Exec(q.cfg, w, run).now >= q.at + d
  }

  lemma HeldBefore(q: Case, reach: Reach, s: real) returns (w: World, l: Ledger, x: NodeId)
    requires OnStage(q) && Closed(q, reach) && reach(Gone(), NOTHING) && 0.0 <= s < Done(q)
    ensures reach(w, l) && w.now == s && x in w.nodes && HoldsOld(q, w.nodes[x])
  {
    var a, y;
    w, l, a := BothEvict(q, reach);
    w, l, x, y := StillHeld(q, reach, w, l, a, s);
    VersionOrder(ENV.version, TOMB.version, ENV.version);
  }

  lemma StillHeldBefore(p: Case, d: real)
    requires Sane(p) && d < Done(p)
    ensures !GoneBy(p, d)
  {
    var q := Here(p);
    var reach: Reach := (w, l) => Reaches(q, Gone(), w, l);
    ReachesClosed(q, reach);
    var w, l, x := HeldBefore(q, reach, if d >= 0.0 then d else 0.0);
    var run :| Leads(q, Gone(), run, w, l);
    GoneIsDeletion(p);
    assert Later(p.(c := C, lk := RECORD, v := TOMB.version, at := 0.0), Gone(), run, x, d);
  }

  /** The deleted record is gone everywhere from `Done` on, and no earlier. */
  lemma GoneByIffDone(p: Case, d: real)
    requires Sane(p) && Enough(p)
    ensures GoneBy(p, d) <==> d >= Done(p)
  {
    if d >= Done(p) {
      forall c, lk, v, at, w, run, i |
          Reachable(p.cfg, w) && Later(p.(c := c, lk := lk, v := v, at := at), w, run, i, d)
        ensures !HoldsOld(p.(c := c, lk := lk, v := v, at := at), Exec(p.cfg, w, run).nodes[i])
      {
        NoRevival(p.(c := c, lk := lk, v := v, at := at), w, run, i);
      }
    } else {
      StillHeldBefore(p, d);
    }
  }
}
