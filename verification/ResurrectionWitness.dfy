/** The conditions on retention and restarts are exact: whenever one fails there is a run, from a
    reachable cluster, that brings a silent node's record back for good. */
module ResurrectionWitness {
  import opened Envelope
  import opened Node
  import opened Protocol
  import opened SmallCluster
  import opened Resurrection

  /** Some quiet run leads from `w0` to `w` with the ticks `ticks`. */
  ghost predicate Reaches(p: Timing, w0: World, ticks0: Ticks, c: NodeId, w: World, ticks: Ticks) {
    exists run :: Leads(p, w0, ticks0, c, run, w, ticks)
  }

  ghost predicate Leads(p: Timing, w0: World, ticks0: Ticks, c: NodeId, run: seq<Step>, w: World, ticks: Ticks) {
    && Valid(p.cfg, w0, run) && QuietRun(p, w0, ticks0, c, run) && Orderly(p.cfg, w0, run)
    && Exec(p.cfg, w0, run) == w && TicksAfter(p, w0, ticks0, run) == ticks
  }

  lemma ReachStart(p: Timing, w0: World, ticks0: Ticks, c: NodeId)
    ensures Reaches(p, w0, ticks0, c, w0, ticks0)
  {
    assert Leads(p, w0, ticks0, c, [], w0, ticks0);
  }

  lemma ReachStep(p: Timing, w0: World, ticks0: Ticks, c: NodeId, w: World, ticks: Ticks, s: Step)
    requires Reaches(p, w0, ticks0, c, w, ticks) && Enabled(w, s) && Quiet(p, w0.now, w, ticks, c, s) && OnLink(w, s)
    ensures Reaches(p, w0, ticks0, c, Next(p.cfg, w, s), Ticked(w, ticks, s))
  {
    var run :| Leads(p, w0, ticks0, c, run, w, ticks);
    var longer := run + [s];
    assert Front(longer) == run && Last(longer) == s;
    assert Leads(p, w0, ticks0, c, longer, Next(p.cfg, w, s), Ticked(w, ticks, s));
  }

  /** Any property of a state that quiet steps keep; `Reaches` is the one it is used for. */
  type Reach = (World, Ticks) -> bool

  ghost predicate Closed(p: Timing, reach: Reach) {
    forall w, ticks, s | reach(w, ticks) && Enabled(w, s) && Quiet(p, 0.0, w, ticks, C, s) && OnLink(w, s) ::
      reach(Next(p.cfg, w, s), Ticked(w, ticks, s))
  }

  lemma Go(p: Timing, reach: Reach, w: World, ticks: Ticks, s: Step, w': World, ticks': Ticks)
    requires Closed(p, reach) && reach(w, ticks) && Enabled(w, s) && Quiet(p, 0.0, w, ticks, C, s) && OnLink(w, s)
    requires Next(p.cfg, w, s) == w' && Ticked(w, ticks, s) == ticks'
    ensures reach(w', ticks')
  {
  }

  // ---- two live nodes A and B, one silent origin C ----

  /** What varies at a live node: when it last heard C (None: session gone), C's cooldown, and
      whether it holds C's record. */
  datatype Side = Side(sees: Option<real>, until: Option<real>, holds: bool)

  function Live(id: NodeId, other: NodeId, met: real, s: Side): Node {
    Replica(id, if s.holds then Some(ENV) else None,
            if s.sees.Some? then Sessions(other, met, C, s.sees.value) else map[other := Peer(D, met)],
            if s.until.Some? then map[C := s.until.value] else map[])
  }

  /** C, which both met one spacing before it fell silent at time 0. */
  function Origin(p: Timing): Node {
    Owner(Created, Sessions(A, 0.0 - p.spacing, B, 0.0 - p.spacing))
  }

  function Scene(p: Timing, now: real, met: real, a: Side, b: Side, net: set<Msg>): World {
    Stageful(now, Live(A, B, met, a), Live(B, A, met, b), Origin(p), net, {ENV})
  }

  function Both(t: real): Ticks {
    map[A := t, B := t]
  }

  predicate Expires(cfg: Config, s: Side, t: real) {
    s.sees.Some? && t - s.sees.value > cfg.hold
  }

  /** A HOLD tick at time `t`. */
  function TickSide(cfg: Config, s: Side, t: real): Side {
    if Expires(cfg, s, t) then Side(None, Some(t + cfg.Retention()), false) else s
  }

  lemma TickLive(cfg: Config, id: NodeId, other: NodeId, t: real, s: Side)
    requires cfg.hold >= 0.0 && id != other && other != C
    requires Expires(cfg, s, t) || s.until.None? || s.sees.None?
    ensures CheckHold(cfg, Live(id, other, t, s), t) == Live(id, other, t, TickSide(cfg, s, t))
  {
    var n := Live(id, other, t, s);
    var n' := CheckHold(cfg, n, t);
    var m := Live(id, other, t, TickSide(cfg, s, t));
    var gone := Stale(cfg, n, t);
    assert gone == if Expires(cfg, s, t) then {C} else {};
    assert n'.sessions == m.sessions;
    assert n'.foreign == m.foreign;
    assert n'.evictedUntil == m.evictedUntil;
  }

  // ---- single steps ----

  lemma AdvanceScene(
      p: Timing, reach: Reach, now: real, met: real, last: real, a: Side, b: Side, net: set<Msg>, t: real)
    requires Closed(p, reach) && reach(Scene(p, now, met, a, b, net), Both(last)) && now <= t <= last + p.spacing
    ensures reach(Scene(p, t, met, a, b, net), Both(last))
  {
    Go(p, reach, Scene(p, now, met, a, b, net), Both(last), Advance(t), Scene(p, t, met, a, b, net), Both(last));
  }

  /** A scene in the middle of a round: A has already heard B, B has not yet heard A. */
  function Half(p: Timing, now: real, met: real, a: Side, b: Side, net: set<Msg>): World {
    Stageful(now, Live(A, B, now, a), Live(B, A, met, b), Origin(p), net, {ENV})
  }

  lemma TouchLive(id: NodeId, other: NodeId, met: real, s: Side, now: real)
    requires id != other && other != C
    ensures Touch(Live(id, other, met, s), other, now) == Live(id, other, now, s)
  {
    assert Touch(Live(id, other, met, s), other, now).sessions == Live(id, other, now, s).sessions;
  }

  lemma HearA(p: Timing, reach: Reach, now: real, met: real, last: real, a: Side, b: Side, net: set<Msg>)
    requires Closed(p, reach) && reach(Scene(p, now, met, a, b, net), Both(last))
    ensures reach(Half(p, now, met, a, b, net), Both(last))
  {
    TouchLive(A, B, met, a, now);
    var w := Scene(p, now, met, a, b, net);
    assert Next(p.cfg, w, Hear(A, B)).nodes == Half(p, now, met, a, b, net).nodes;
    Go(p, reach, w, Both(last), Hear(A, B), Half(p, now, met, a, b, net), Both(last));
  }

  lemma HearB(p: Timing, reach: Reach, now: real, met: real, last: real, a: Side, b: Side, net: set<Msg>)
    requires Closed(p, reach) && reach(Half(p, now, met, a, b, net), Both(last))
    ensures reach(Scene(p, now, now, a, b, net), Both(last))
  {
    TouchLive(B, A, met, b, now);
    var w := Half(p, now, met, a, b, net);
    assert Next(p.cfg, w, Hear(B, A)).nodes == Scene(p, now, now, a, b, net).nodes;
    Go(p, reach, w, Both(last), Hear(B, A), Scene(p, now, now, a, b, net), Both(last));
  }

  predicate Regular(cfg: Config, s: Side, t: real) {
    Expires(cfg, s, t) || s.until.None? || s.sees.None?
  }

  lemma TickA(p: Timing, reach: Reach, last: real, a: Side, b: Side, net: set<Msg>, t: real)
    requires Sane(p) && Regular(p.cfg, a, t) && Closed(p, reach) && reach(Scene(p, t, t, a, b, net), Both(last))
    ensures reach(Scene(p, t, t, TickSide(p.cfg, a, t), b, net), Both(last)[A := t])
  {
    TickLive(p.cfg, A, B, t, a);
    var w, w' := Scene(p, t, t, a, b, net), Scene(p, t, t, TickSide(p.cfg, a, t), b, net);
    assert Next(p.cfg, w, HoldTick(A)).nodes == w'.nodes;
    Go(p, reach, w, Both(last), HoldTick(A), w', Both(last)[A := t]);
  }

  lemma TickB(p: Timing, reach: Reach, last: real, a: Side, b: Side, net: set<Msg>, t: real)
    requires Sane(p) && Regular(p.cfg, b, t) && Closed(p, reach) && reach(Scene(p, t, t, a, b, net), Both(last)[A := t])
    ensures reach(Scene(p, t, t, a, TickSide(p.cfg, b, t), net), Both(t))
  {
    TickLive(p.cfg, B, A, t, b);
    var w, w' := Scene(p, t, t, a, b, net), Scene(p, t, t, a, TickSide(p.cfg, b, t), net);
    assert Next(p.cfg, w, HoldTick(B)).nodes == w'.nodes;
    assert Both(last)[A := t][B := t] == Both(t);
    Go(p, reach, w, Both(last)[A := t], HoldTick(B), w', Both(t));
  }

  // ---- rounds ----

  /** One round: time passes to `t`, A and B hear each other, both tick. */
  lemma Round(p: Timing, reach: Reach, now: real, met: real, last: real, a: Side, b: Side, net: set<Msg>, t: real)
    requires Sane(p) && now <= t <= last + p.spacing && Regular(p.cfg, a, t) && Regular(p.cfg, b, t)
    requires Closed(p, reach) && reach(Scene(p, now, met, a, b, net), Both(last))
    ensures reach(Scene(p, t, t, TickSide(p.cfg, a, t), TickSide(p.cfg, b, t), net), Both(t))
  {
    AdvanceScene(p, reach, now, met, last, a, b, net, t);
    HearA(p, reach, t, met, last, a, b, net);
    HearB(p, reach, t, met, last, a, b, net);
    TickA(p, reach, last, a, b, net, t);
    TickB(p, reach, last, TickSide(p.cfg, a, t), b, net, t);
  }

  /** Nobody's HOLD expires up to time `t`. */
  predicate Calm(cfg: Config, s: Side, t: real) {
    s.sees.Some? ==> s.until.None? && t - s.sees.value <= cfg.hold
  }

  /** Rounds without any eviction, up to any later time, however many they take. */
  lemma {:induction false} Idle(
      p: Timing, reach: Reach, now: real, a: Side, b: Side, net: set<Msg>, t: real, rounds: nat)
    requires Sane(p) && now <= t <= now + rounds as real * p.spacing
    requires Calm(p.cfg, a, t) && Calm(p.cfg, b, t)
    requires Closed(p, reach) && reach(Scene(p, now, now, a, b, net), Both(now))
    ensures reach(Scene(p, t, t, a, b, net), Both(t))
    decreases rounds
  {
    if t > now {
      var next := if t <= now + p.spacing then t else now + p.spacing;
      Round(p, reach, now, now, now, a, b, net, next);
      assert TickSide(p.cfg, a, next) == a && TickSide(p.cfg, b, next) == b;
      assert (rounds - 1) as real * p.spacing == rounds as real * p.spacing - p.spacing;
      Idle(p, reach, next, a, b, net, t, rounds - 1);
    }
  }

  lemma EnoughRounds(gap: real, spacing: real) returns (rounds: nat)
    requires gap >= 0.0 && spacing > 0.0
    ensures gap <= rounds as real * spacing
  {
    var q := gap / spacing;
    rounds := q.Floor + 1;
    assert q <= rounds as real;
    assert gap == q * spacing;
    assert q * spacing <= rounds as real * spacing;
  }

  lemma IdleUntil(p: Timing, reach: Reach, now: real, a: Side, b: Side, net: set<Msg>, t: real)
    requires Sane(p) && now <= t && Calm(p.cfg, a, t) && Calm(p.cfg, b, t)
    requires Closed(p, reach) && reach(Scene(p, now, now, a, b, net), Both(now))
    ensures reach(Scene(p, t, t, a, b, net), Both(t))
  {
    var rounds := EnoughRounds(t - now, p.spacing);
    Idle(p, reach, now, a, b, net, t, rounds);
  }

  // ---- the run ----

  /** B heard C at the very moment it fell silent, A at `seen`. */
  function Opening(p: Timing, seen: real): World {
    Scene(p, 0.0, 0.0, Side(Some(seen), None, true), Side(Some(0.0), None, true), {})
  }

  /** A evicts C as early as HOLD allows: just after `hold - spacing`, or at once. */
  function EvictionTime(p: Timing): real {
    var slack := 2.0 * p.spacing + p.delay - p.cfg.Retention();
    if p.cfg.hold >= p.spacing then p.cfg.hold - p.spacing + (if slack <= p.spacing then slack else p.spacing)
    else 0.0
  }

  /** A after its early eviction of C, holding C's record again or not. */
  function EarlySide(p: Timing, holds: bool): Side {
    Side(None, Some(EvictionTime(p) + p.cfg.Retention()), holds)
  }

  /** After the eviction. */
  function GoneUntil(until: real): Side {
    Side(None, Some(until), false)
  }

  const LATE_SIDE: Side := Side(Some(0.0), None, true)

  lemma EvictionEarly(p: Timing)
    requires Sane(p) && !LongEnough(p)
    ensures var e := EvictionTime(p);
            && 0.0 <= e <= p.cfg.hold && p.cfg.hold - p.spacing < e
            && e <= (if p.cfg.hold >= p.spacing then p.cfg.hold - p.spacing else 0.0) + p.spacing
            && e + p.cfg.Retention() <= p.cfg.hold + p.spacing + p.delay
  {
  }

  /** A has evicted C and B, at its last tick before it must, still waits. */
  lemma EarlyEviction(p: Timing, reach: Reach)
    requires Sane(p) && !LongEnough(p) && Closed(p, reach) && reach(Opening(p, 0.0 - p.spacing), Both(0.0))
    ensures reach(Scene(p, p.cfg.hold, p.cfg.hold, EarlySide(p, false), LATE_SIDE, {}), Both(p.cfg.hold))
  {
    var a, b := Side(Some(0.0 - p.spacing), None, true), LATE_SIDE;
    var e := EvictionTime(p);
    var calm := if p.cfg.hold >= p.spacing then p.cfg.hold - p.spacing else 0.0;
    EvictionEarly(p);
    if p.cfg.hold >= p.spacing { IdleUntil(p, reach, 0.0, a, b, {}, calm); }
    Round(p, reach, calm, calm, calm, a, b, {}, e);
    assert TickSide(p.cfg, a, e) == EarlySide(p, false) && TickSide(p.cfg, b, e) == b;
    IdleUntil(p, reach, e, EarlySide(p, false), b, {}, p.cfg.hold);
  }

  /** B, still holding C's record, pushes it to A. */
  lemma SendToA(p: Timing, reach: Reach, now: real, met: real, last: real, a: Side)
    requires Closed(p, reach) && reach(Scene(p, now, met, a, LATE_SIDE, {}), Both(last))
    ensures reach(Scene(p, now, met, a, LATE_SIDE, {Msg(A, ENV, now)}), Both(last))
  {
    var w := Scene(p, now, met, a, LATE_SIDE, {});
    assert BuildFor(w.nodes[B], KEY) == Some(ENV);
    assert InScope(w.nodes[B].sessions[A].namespaces, KEY.dataset);
    assert Linked(w, B, A, KEY.dataset);
    assert w.net + {Msg(A, ENV, now)} == {Msg(A, ENV, now)};
    Go(p, reach, w, Both(last), Send(B, A, KEY), Scene(p, now, met, a, LATE_SIDE, {Msg(A, ENV, now)}), Both(last));
  }

  lemma DeliverToA(p: Timing, reach: Reach, end: real, sentAt: real, until: real, b: Side)
    requires until <= end <= sentAt + p.delay
    requires Closed(p, reach)
    requires reach(Scene(p, end, end, Side(None, Some(until), false), b, {Msg(A, ENV, sentAt)}), Both(end))
    ensures reach(Scene(p, end, end, Side(None, Some(until), true), b, {Msg(A, ENV, sentAt)}), Both(end))
  {
    var net := {Msg(A, ENV, sentAt)};
    var w, w' := Scene(p, end, end, Side(None, Some(until), false), b, net),
                 Scene(p, end, end, Side(None, Some(until), true), b, net);
    assert Apply(w.nodes[A], ENV, end).foreign == map[KEY := ENV];
    assert Next(p.cfg, w, Deliver(Msg(A, ENV, sentAt))).nodes == w'.nodes;
    Go(p, reach, w, Both(end), Deliver(Msg(A, ENV, sentAt)), w', Both(end));
  }

  /** Well past the deadline: A holds C's record without a session to C, so no HOLD timer will ever
      evict it again. */
  function Ending(p: Timing): World {
    var late := p.cfg.hold + p.spacing;
    var t := late + p.delay + p.spacing;
    Scene(p, t, t, EarlySide(p, true), Side(None, Some(late + p.cfg.Retention()), false), {Msg(A, ENV, late)})
  }

  /** B hands C's record to A right before evicting C itself; it arrives when A's cooldown is over. */
  lemma LateRelay(p: Timing, reach: Reach)
    requires Sane(p) && !LongEnough(p) && Closed(p, reach) && reach(Opening(p, 0.0 - p.spacing), Both(0.0))
    ensures reach(Ending(p), Both(Ending(p).now))
  {
    var hold, late, end := p.cfg.hold, p.cfg.hold + p.spacing, p.cfg.hold + p.spacing + p.delay;
    var net := {Msg(A, ENV, late)};
    EvictionEarly(p);
    EarlyEviction(p, reach);
    AdvanceScene(p, reach, hold, hold, hold, EarlySide(p, false), LATE_SIDE, {}, late);
    SendToA(p, reach, late, hold, hold, EarlySide(p, false));
    Round(p, reach, late, hold, hold, EarlySide(p, false), LATE_SIDE, net, late);
    var b := Side(None, Some(late + p.cfg.Retention()), false);
    assert TickSide(p.cfg, LATE_SIDE, late) == b && TickSide(p.cfg, EarlySide(p, false), late) == EarlySide(p, false);
    IdleUntil(p, reach, late, EarlySide(p, false), b, net, end);
    DeliverToA(p, reach, end, late, EvictionTime(p) + p.cfg.Retention(), b);
    IdleUntil(p, reach, end, EarlySide(p, true), b, net, end + p.spacing);
  }

  // ---- a restart ----

  /** A after a restart, holding `a` of C's record; B as before. */
  function Restarted(p: Timing, now: real, met: real, a: Option<Envelope>, b: Side, net: set<Msg>): World {
    Stageful(now, Replica(A, a, map[], map[]), Live(B, A, met, b), Origin(p), net, {ENV})
  }

  lemma RestartA(p: Timing, reach: Reach, now: real, met: real, a: Side, b: Side, net: set<Msg>, ticks: Ticks)
    requires Closed(p, reach) && reach(Scene(p, now, met, a, b, net), ticks) && now > p.restart
    ensures reach(Restarted(p, now, met, None, b, net), ticks)
  {
    var n := Live(A, B, met, a);
    assert Restart(n) == Replica(A, None, map[], map[]);
    SetA(now, n, Live(B, A, met, b), Origin(p), net, {ENV}, Replica(A, None, map[], map[]));
    Go(p, reach, Scene(p, now, met, a, b, net), ticks, Reboot(A), Restarted(p, now, met, None, b, net), ticks);
  }

  lemma DeliverToRestarted(p: Timing, reach: Reach, now: real, met: real, b: Side, sentAt: real, ticks: Ticks)
    requires Closed(p, reach) && reach(Restarted(p, now, met, None, b, {Msg(A, ENV, sentAt)}), ticks)
    requires now <= sentAt + p.delay
    ensures reach(Restarted(p, now, met, Some(ENV), b, {Msg(A, ENV, sentAt)}), ticks)
  {
    var net := {Msg(A, ENV, sentAt)};
    var n, n' := Replica(A, None, map[], map[]), Replica(A, Some(ENV), map[], map[]);
    assert Apply(n, ENV, now) == n';
    SetA(now, n, Live(B, A, met, b), Origin(p), net, {ENV}, n');
    Go(p, reach, Restarted(p, now, met, None, b, net), ticks, Deliver(Msg(A, ENV, sentAt)),
        Restarted(p, now, met, Some(ENV), b, net), ticks);
  }

  /** Well past the deadline A holds C's record, without session or cooldown. */
  function RestartEnding(p: Timing): World {
    var late, end := p.cfg.hold + p.spacing, LastArrival(p);
    Restarted(p, end + p.spacing, end, Some(ENV), GoneUntil(late + p.cfg.Retention()), {Msg(A, ENV, late)})
  }

  /** Both evict C at their last moment; B has just handed its record on. */
  lemma BothEvict(p: Timing, reach: Reach)
    requires Sane(p) && Closed(p, reach) && reach(Opening(p, 0.0), Both(0.0))
    ensures var late := p.cfg.hold + p.spacing;
            var gone := GoneUntil(late + p.cfg.Retention());
            reach(Scene(p, late, late, gone, gone, {Msg(A, ENV, late)}), Both(late))
  {
    var hold, late := p.cfg.hold, p.cfg.hold + p.spacing;
    IdleUntil(p, reach, 0.0, LATE_SIDE, LATE_SIDE, {}, hold);
    AdvanceScene(p, reach, hold, hold, hold, LATE_SIDE, LATE_SIDE, {}, late);
    SendToA(p, reach, late, hold, hold, LATE_SIDE);
    Round(p, reach, late, hold, hold, LATE_SIDE, LATE_SIDE, {Msg(A, ENV, late)}, late);
    assert TickSide(p.cfg, LATE_SIDE, late) == GoneUntil(late + p.cfg.Retention());
  }

  /** A restarts, forgets its cooldown, and the record arrives. */
  lemma EarlyRestart(p: Timing, reach: Reach)
    requires Sane(p) && p.restart < LastArrival(p) && Closed(p, reach) && reach(Opening(p, 0.0), Both(0.0))
    ensures reach(RestartEnding(p), Both(LastArrival(p)))
  {
    var late, end := p.cfg.hold + p.spacing, LastArrival(p);
    var gone := GoneUntil(late + p.cfg.Retention());
    BothEvict(p, reach);
    IdleUntil(p, reach, late, gone, gone, {Msg(A, ENV, late)}, end);
    RestartA(p, reach, end, end, gone, gone, {Msg(A, ENV, late)}, Both(end));
    DeliverToRestarted(p, reach, end, end, gone, late, Both(end));
    AdvanceRestarted(p, reach, end, gone, {Msg(A, ENV, late)});
  }

  lemma AdvanceRestarted(p: Timing, reach: Reach, end: real, b: Side, net: set<Msg>)
    requires Sane(p) && Closed(p, reach) && reach(Restarted(p, end, end, Some(ENV), b, net), Both(end))
    ensures reach(Restarted(p, end + p.spacing, end, Some(ENV), b, net), Both(end))
  {
    Go(p, reach, Restarted(p, end, end, Some(ENV), b, net), Both(end), Advance(end + p.spacing),
       Restarted(p, end + p.spacing, end, Some(ENV), b, net), Both(end));
  }

  // ---- the opening is reachable ----

  lemma TouchOrigin(id: NodeId, other: NodeId, met: real, s: Side, now: real)
    requires other != C && s.sees.Some?
    ensures Touch(Live(id, other, met, s), C, now) == Live(id, other, met, s.(sees := Some(now)))
  {
    assert Touch(Live(id, other, met, s), C, now).sessions == Live(id, other, met, s.(sees := Some(now))).sessions;
  }

  /** The cluster before the silence: when A and B last met, by either's clock, and their view of C. */
  function Before(p: Timing, now: real, metA: real, a: Side, metB: real, b: Side): World {
    Stageful(now, Live(A, B, metA, a), Live(B, A, metB, b), Origin(p), {}, {ENV})
  }

  lemma HearsA(p: Timing, now: real, metA: real, a: Side, metB: real, b: Side, peer: NodeId, met': real, a': Side)
    requires Reachable(p.cfg, Before(p, now, metA, a, metB, b))
    requires Touch(Live(A, B, metA, a), peer, now) == Live(A, B, met', a')
    ensures Reachable(p.cfg, Before(p, now, met', a', metB, b))
  {
    SetA(now, Live(A, B, metA, a), Live(B, A, metB, b), Origin(p), {}, {ENV}, Live(A, B, met', a'));
    ReachableNext(p.cfg, Before(p, now, metA, a, metB, b), Hear(A, peer));
  }

  lemma HearsB(p: Timing, now: real, metA: real, a: Side, metB: real, b: Side, peer: NodeId, met': real, b': Side)
    requires Reachable(p.cfg, Before(p, now, metA, a, metB, b))
    requires Touch(Live(B, A, metB, b), peer, now) == Live(B, A, met', b')
    ensures Reachable(p.cfg, Before(p, now, metA, a, met', b'))
  {
    SetB(now, Live(A, B, metA, a), Live(B, A, metB, b), Origin(p), {}, {ENV}, Live(B, A, met', b'));
    ReachableNext(p.cfg, Before(p, now, metA, a, metB, b), Hear(B, peer));
  }

  lemma MeshedIsBefore(p: Timing, t: real)
    requires t == 0.0 - p.spacing
    ensures var s := Side(Some(t), None, true); Meshed(t) == Before(p, t, t, s, t, s)
  {
    assert Sessions(C, t, B, t) == Sessions(B, t, C, t) && Sessions(C, t, A, t) == Sessions(A, t, C, t);
  }

  lemma LastContact(p: Timing, t: real, s: Side)
    requires Sane(p) && t == 0.0 - p.spacing && s == Side(Some(t), None, true)
    ensures Reachable(p.cfg, Before(p, 0.0, t, s, t, s))
  {
    MeshedIsReachable(p.cfg, t);
    MeshedIsBefore(p, t);
    ReachableNext(p.cfg, Before(p, t, t, s, t, s), Advance(0.0));
  }

  lemma AllHeard(p: Timing, t: real, s: Side, late: Side, seen: real)
    requires s == Side(Some(t), None, true) && late == Side(Some(0.0), None, true) && (seen == t || seen == 0.0)
    requires Reachable(p.cfg, Before(p, 0.0, t, s, t, s))
    ensures Reachable(p.cfg, Before(p, 0.0, 0.0, Side(Some(seen), None, true), 0.0, late))
  {
    TouchLive(A, B, t, s, 0.0);
    HearsA(p, 0.0, t, s, t, s, B, 0.0, s);
    TouchLive(B, A, t, s, 0.0);
    HearsB(p, 0.0, 0.0, s, t, s, A, 0.0, s);
    TouchOrigin(B, A, 0.0, s, 0.0);
    HearsB(p, 0.0, 0.0, s, 0.0, s, C, 0.0, late);
    if seen != t {
      TouchOrigin(A, B, 0.0, s, 0.0);
      HearsA(p, 0.0, 0.0, s, 0.0, late, C, 0.0, late);
    }
  }

  lemma OpeningIsReachable(p: Timing, seen: real)
    requires Sane(p) && (seen == 0.0 || seen == 0.0 - p.spacing)
    ensures Reachable(p.cfg, Opening(p, seen))
  {
    var t := 0.0 - p.spacing;
    LastContact(p, t, Side(Some(t), None, true));
    AllHeard(p, t, Side(Some(t), None, true), Side(Some(0.0), None, true), seen);
  }

  lemma LiveSees(p: Timing, id: NodeId, other: NodeId, seen: real)
    requires Sane(p) && (seen == 0.0 || seen == 0.0 - p.spacing) && id != C && other != C
    ensures var n := Live(id, other, 0.0, Side(Some(seen), None, true));
            && n.id == id && OverlayOk(n) && C in n.sessions && 0.0 - p.spacing <= n.sessions[C].lastSeen <= 0.0
  {
  }

  lemma OpeningStarts(p: Timing, seen: real)
    requires Sane(p) && (seen == 0.0 || seen == 0.0 - p.spacing)
    ensures Start(p, Opening(p, seen), Both(0.0), C)
  {
    var w := Opening(p, seen);
    LiveSees(p, A, B, seen);
    LiveSees(p, B, A, 0.0);
    assert w.nodes.Keys == {A, B, C} && w.nodes[C].id == C && OverlayOk(w.nodes[C]) && w.now == 0.0;
  }

  // ---- the exact condition ----

  /** Whatever node falls silent in whatever reachable cluster: every quiet and orderly run forgets it. */
  ghost predicate AlwaysGone(p: Timing) {
    forall w, ticks, c, run ::
      Reachable(p.cfg, w) && Silence(p, w, ticks, c, run) ==> Gone(p, w.now, Exec(p.cfg, w, run), c)
  }

  ghost predicate Silence(p: Timing, w: World, ticks: Ticks, c: NodeId, run: seq<Step>) {
    Start(p, w, ticks, c) && Valid(p.cfg, w, run) && QuietRun(p, w, ticks, c, run) && Orderly(p.cfg, w, run)
  }

  /** A run from one of the openings to a world where A holds the record again. */
  lemma ReturnRefutes(p: Timing, seen: real, run: seq<Step>, end: World, ticks: Ticks)
    requires Sane(p) && (seen == 0.0 || seen == 0.0 - p.spacing)
    requires Leads(p, Opening(p, seen), Both(0.0), C, run, end, ticks)
    requires A in end.nodes && KEY in end.nodes[A].foreign && end.now > p.cfg.hold + p.spacing
    ensures !AlwaysGone(p)
  {
    OpeningIsReachable(p, seen);
    OpeningStarts(p, seen);
    assert Silence(p, Opening(p, seen), Both(0.0), C, run);
    assert !Gone(p, 0.0, end, C);
  }

  lemma NotAlwaysGone(p: Timing)
    requires Sane(p) && !Enough(p)
    ensures !AlwaysGone(p)
  {
    var seen := if LongEnough(p) then 0.0 else 0.0 - p.spacing;
    var w0, ticks0 := Opening(p, seen), Both(0.0);
    var reach: Reach := (w, ticks) => Reaches(p, w0, ticks0, C, w, ticks);
    forall w, ticks, s | reach(w, ticks) && Enabled(w, s) && Quiet(p, 0.0, w, ticks, C, s) && OnLink(w, s)
      ensures reach(Next(p.cfg, w, s), Ticked(w, ticks, s))
    {
      ReachStep(p, w0, ticks0, C, w, ticks, s);
    }
    ReachStart(p, w0, ticks0, C);
    if LongEnough(p) {
      EarlyRestart(p, reach);
      var run :| Leads(p, w0, ticks0, C, run, RestartEnding(p), Both(LastArrival(p)));
      ReturnRefutes(p, seen, run, RestartEnding(p), Both(LastArrival(p)));
    } else {
      LateRelay(p, reach);
      var run :| Leads(p, w0, ticks0, C, run, Ending(p), Both(Ending(p).now));
      ReturnRefutes(p, seen, run, Ending(p), Both(Ending(p).now));
    }
  }

  /** The exact condition: every quiet run forgets the silent node by `hold + spacing` after it fell
      silent if and only if the cooldown is long enough and live nodes restart only after the last
      envelope of the silent node can have arrived. */
  lemma NoResurrectionIffEnough(p: Timing)
    requires Sane(p)
    ensures AlwaysGone(p) <==> Enough(p)
  {
    if Enough(p) {
      forall w, ticks, c, run | Reachable(p.cfg, w) && Silence(p, w, ticks, c, run)
        ensures Gone(p, w.now, Exec(p.cfg, w, run), c)
      {
        NoResurrection(p, w, ticks, c, run);
      }
    } else {
      NotAlwaysGone(p);
    }
  }
}
