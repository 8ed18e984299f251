/** The object's operations and the steps of the cluster protocol are the same thing. */
module Refinement {
  import opened Envelope
  import opened Merkle
  import opened Node
  import opened Exchange
  import opened Protocol
  import ClusterStore

  /** The world after the two stores `i` and `j` are in the states `l` and `r`. */
  function Both(w: World, l: Node, r: Node): World {
    WithNode(WithNode(w, l), r)
  }

  /** What a completed `reconcile` of the store of `i` with that of `j` leaves, without a collision, is
      the protocol's step. */
  lemma ReconcileIsMeet(cfg: Config, w: World, i: NodeId, j: NodeId, lf: Overlay, rf: Overlay)
    requires Enabled(w, Reconcile(i, j)) && w.nodes[i].id == i && w.nodes[j].id == j
    requires ClusterStore.Exchanged(w.nodes[i], w.nodes[j], w.nodes[i].sessions[j].namespaces, w.now, w.now, lf, rf)
    ensures Next(cfg, w, Reconcile(i, j))
         == Both(w, w.nodes[i].(foreign := lf), Touch(w.nodes[j], i, w.now).(foreign := rf))
  {
  }

  /** The same for `connect_peer`, which opens the session first. */
  lemma ConnectIsStep(cfg: Config, w: World, i: NodeId, j: NodeId, offered: set<string>, lf: Overlay, rf: Overlay)
    requires i in w.nodes && j in w.nodes && i != j && w.nodes[i].id == i && w.nodes[j].id == j
    requires var ns := Accepted(w.nodes[j], offered);
             ClusterStore.Exchanged(Open(w.nodes[i], j, ns, w.now), Open(w.nodes[j], i, ns, w.now), ns,
                                    w.now, w.now, lf, rf)
    ensures var ns := Accepted(w.nodes[j], offered);
            Next(cfg, w, Connect(i, j, offered))
            == Both(w, Open(w.nodes[i], j, ns, w.now).(foreign := lf),
                    Touch(Open(w.nodes[j], i, ns, w.now), i, w.now).(foreign := rf))
  {
    ConnectShape(cfg, w, i, j, offered);
  }

  /** Stamping several records in `_ensure_local_versions` is a run of stamps of single records. */
  function Stamps(i: NodeId, wall: int, lks: seq<LocalKey>): seq<Step> {
    seq(|lks|, k requires 0 <= k < |lks| => StampOne(i, wall, lks[k]))
  }

  lemma {:induction false} StampAllIsRun(cfg: Config, w: World, i: NodeId, wall: int, lks: seq<LocalKey>)
    requires i in w.nodes && w.nodes[i].id == i
    ensures Valid(cfg, w, Stamps(i, wall, lks))
    ensures Exec(cfg, w, Stamps(i, wall, lks)).nodes == w.nodes[i := StampAll(w.nodes[i], wall, lks)]
    ensures Exec(cfg, w, Stamps(i, wall, lks)).net == w.net && Exec(cfg, w, Stamps(i, wall, lks)).now == w.now
    decreases |lks|
  {
    var run := Stamps(i, wall, lks);
    if lks == [] {
      assert run == [] && w.nodes[i := w.nodes[i]] == w.nodes;
    } else {
      var front := lks[..|lks| - 1];
      assert Front(run) == Stamps(i, wall, front) && Last(run) == StampOne(i, wall, lks[|lks| - 1]);
      StampAllIsRun(cfg, w, i, wall, front);
      StampAllKeeps(w.nodes[i], wall, front);
    }
  }

  /** A batch that arrives envelope by envelope is a run of deliveries. */
  function Deliveries(to: NodeId, envs: seq<Envelope>, sentAt: real): seq<Step> {
    seq(|envs|, k requires 0 <= k < |envs| => Deliver(Msg(to, envs[k], sentAt)))
  }

  /** So what a pull stored before the rest of its reconcile failed is what those deliveries store. */
  lemma {:induction false} ApplyListIsRun(cfg: Config, w: World, to: NodeId, envs: seq<Envelope>, sentAt: real)
    requires to in w.nodes && w.nodes[to].id == to && forall e | e in envs :: Msg(to, e, sentAt) in w.net
    ensures Valid(cfg, w, Deliveries(to, envs, sentAt))
    ensures Exec(cfg, w, Deliveries(to, envs, sentAt))
         == w.(nodes := w.nodes[to := ApplyList(w.nodes[to], envs, w.now)])
    decreases |envs|
  {
    var run := Deliveries(to, envs, sentAt);
    if envs == [] {
      assert run == [] && w.nodes[to := w.nodes[to]] == w.nodes;
    } else {
      var front := envs[..|envs| - 1];
      assert Front(run) == Deliveries(to, front, sentAt) && Last(run) == Deliver(Msg(to, envs[|envs| - 1], sentAt));
      assert forall e | e in front :: e in envs;
      ApplyListIsRun(cfg, w, to, front, sentAt);
      ApplyKeepsId(w.nodes[to], front, w.now);
    }
  }

  lemma {:induction false} ApplyKeepsId(n: Node, envs: seq<Envelope>, now: real)
    ensures ApplyList(n, envs, now).id == n.id
  {
    if envs != [] { ApplyKeepsId(n, envs[..|envs| - 1], now); }
  }

  // ---- the calls of a connect, one by one ----

  /** Both handlers of an OPEN record a session; anything may come between and after them. */
  lemma OpeningIsRun(cfg: Config, w: World, i: NodeId, j: NodeId, ns: set<string>)
    requires i in w.nodes && j in w.nodes && i != j && w.nodes[i].id == i && w.nodes[j].id == j
    ensures var run := [OpenSession(j, i, ns), OpenSession(i, j, ns)];
            Valid(cfg, w, run) && Exec(cfg, w, run) == Opened(w, i, j, ns)
  {
    var first, second := [OpenSession(j, i, ns)], [OpenSession(i, j, ns)];
    SingleRun(cfg, w, first[0]);
    SingleRun(cfg, Exec(cfg, w, first), second[0]);
    RunsCompose(cfg, w, first, second);
    assert first + second == [OpenSession(j, i, ns), OpenSession(i, j, ns)];
  }

  lemma SingleRun(cfg: Config, w: World, s: Step)
    requires Enabled(w, s)
    ensures Valid(cfg, w, [s]) && Exec(cfg, w, [s]) == Next(cfg, w, s)
  {
    assert Front([s]) == [] && Last([s]) == s;
  }

  /** Envelopes that leave one by one, and what is then on its way. */
  function Sendings(i: NodeId, to: NodeId, envs: seq<Envelope>): seq<Step> {
    seq(|envs|, k requires 0 <= k < |envs| => Send(i, to, envs[k].key))
  }

  function Mail(to: NodeId, envs: seq<Envelope>, now: real): set<Msg> {
    set e | e in envs :: Msg(to, e, now)
  }

  lemma {:induction false} SendingsAreRun(cfg: Config, w: World, i: NodeId, to: NodeId, envs: seq<Envelope>)
    requires i in w.nodes && to in w.nodes && i != to && forall e | e in envs :: BuildFor(w.nodes[i], e.key) == Some(e)
    ensures Valid(cfg, w, Sendings(i, to, envs))
    ensures Exec(cfg, w, Sendings(i, to, envs)) == w.(net := w.net + Mail(to, envs, w.now))
    decreases |envs|
  {
    var run := Sendings(i, to, envs);
    if envs == [] {
      assert run == [] && w.net + Mail(to, envs, w.now) == w.net;
    } else {
      var front, last := envs[..|envs| - 1], envs[|envs| - 1];
      assert envs == front + [last];
      SendingsFront(i, to, front, last);
      assert forall e | e in front :: e in envs;
      assert last in envs;
      SendingsAreRun(cfg, w, i, to, front);
      MailGrows(to, front, last, w.now);
      NextSending(cfg, w, w.net + Mail(to, front, w.now), i, to, last);
      assert w.net + Mail(to, envs, w.now) == w.net + Mail(to, front, w.now) + {Msg(to, last, w.now)};
    }
  }

  lemma NextSending(cfg: Config, w: World, net: set<Msg>, i: NodeId, to: NodeId, e: Envelope)
    requires i in w.nodes && to in w.nodes && i != to && BuildFor(w.nodes[i], e.key) == Some(e)
    ensures var w1, s := w.(net := net), Send(i, to, e.key);
            Enabled(w1, s) && Next(cfg, w1, s) == w.(net := net + {Msg(to, e, w.now)})
  {
  }

  lemma SendingsFront(i: NodeId, to: NodeId, front: seq<Envelope>, last: Envelope)
    ensures var run := Sendings(i, to, front + [last]);
            run != [] && Front(run) == Sendings(i, to, front) && Last(run) == Send(i, to, last.key)
  {
  }

  lemma MailGrows(to: NodeId, front: seq<Envelope>, last: Envelope, now: real)
    ensures Mail(to, front + [last], now) == Mail(to, front, now) + {Msg(to, last, now)}
  {
  }

  /** `serve_pull` hears the caller and sends what it answers. */
  lemma PullIsRun(cfg: Config, w: World, j: NodeId, from: NodeId, keys: set<Key>, envs: seq<Envelope>)
    requires j in w.nodes && from in w.nodes && j != from && w.nodes[j].id == j
    requires Lists(envs, Served(w.nodes[j], from, keys))
    ensures var run := [Hear(j, from)] + Sendings(j, from, envs);
            && Valid(cfg, w, run)
            && Exec(cfg, w, run) == WithNode(w, Touch(w.nodes[j], from, w.now)).(net := w.net + Mail(from, envs, w.now))
  {
    var w1 := WithNode(w, Touch(w.nodes[j], from, w.now));
    SingleRun(cfg, w, Hear(j, from));
    forall e | e in envs ensures BuildFor(w1.nodes[j], e.key) == Some(e) {
      var k :| 0 <= k < |envs| && envs[k] == e;
    }
    SendingsAreRun(cfg, w1, j, from, envs);
    RunsCompose(cfg, w, [Hear(j, from)], Sendings(j, from, envs));
  }

  /** `serve_updates` hears the caller and takes what it pushed. */
  lemma UpdatesAreRun(cfg: Config, w: World, j: NodeId, from: NodeId, envs: seq<Envelope>, sentAt: real)
    requires j in w.nodes && w.nodes[j].id == j && forall e | e in envs :: Msg(j, e, sentAt) in w.net
    ensures var run := [Hear(j, from)] + Deliveries(j, envs, sentAt);
            && Valid(cfg, w, run)
            && Exec(cfg, w, run) == WithNode(w, ApplyList(Touch(w.nodes[j], from, w.now), envs, w.now))
  {
    var w1 := WithNode(w, Touch(w.nodes[j], from, w.now));
    SingleRun(cfg, w, Hear(j, from));
    ApplyListIsRun(cfg, w1, j, envs, sentAt);
    ApplyKeepsId(w1.nodes[j], envs, w.now);
    var n := ApplyList(w1.nodes[j], envs, w.now);
    assert w1.nodes[j := n] == w.nodes[j := n];
    RunsCompose(cfg, w, [Hear(j, from)], Deliveries(j, envs, sentAt));
  }

  // ---- a whole reconcile from these calls ----

  lemma {:induction false} Listed(o: Overlay) returns (envs: seq<Envelope>)
    requires Keyed(o)
    ensures Lists(envs, o)
    decreases |o|
  {
    if o.Keys == {} {
      envs := [];
    } else {
      var k :| k in o;
      envs := Listed(o - {k});
      ClusterStore.ListsMore(envs, o - {k}, o[k]);
      assert (o - {k})[k := o[k]] == o;
      envs := envs + [o[k]];
    }
  }

  predicate CallByCall(s: Step) {
    s.OpenSession? || s.Send? || s.Hear? || s.Deliver?
  }

  /** A run of such steps from `w` leaves the nodes of `w'`; only the network remembers more. */
  ghost predicate ReachedByCalls(cfg: Config, w: World, run: seq<Step>, w': World) {
    && Valid(cfg, w, run) && (forall s | s in run :: CallByCall(s))
    && Exec(cfg, w, run) == w'.(net := Exec(cfg, w, run).net)
  }

  lemma CallsCompose(cfg: Config, w: World, first: seq<Step>, w1: World, second: seq<Step>, w2: World)
    requires ReachedByCalls(cfg, w, first, w1) && Exec(cfg, w, first) == w1 && ReachedByCalls(cfg, w1, second, w2)
    ensures ReachedByCalls(cfg, w, first + second, w2) && Exec(cfg, w, first + second) == Exec(cfg, w1, second)
  {
    RunsCompose(cfg, w, first, second);
  }

  /** Both sides send what the other may lack, */
  lemma BothSend(cfg: Config, w: World, i: NodeId, j: NodeId, down: seq<Envelope>, up: seq<Envelope>)
    returns (run: seq<Step>)
    requires i in w.nodes && j in w.nodes && i != j
    requires forall e | e in down :: BuildFor(w.nodes[j], e.key) == Some(e)
    requires forall e | e in up :: BuildFor(w.nodes[i], e.key) == Some(e)
    ensures var w' := w.(net := w.net + Mail(i, down, w.now) + Mail(j, up, w.now));
            ReachedByCalls(cfg, w, run, w') && Exec(cfg, w, run) == w'
  {
    var w1 := w.(net := w.net + Mail(i, down, w.now));
    SendingsAreRun(cfg, w, j, i, down);
    SendingsAreRun(cfg, w1, i, j, up);
    run := Sendings(j, i, down) + Sendings(i, j, up);
    CallsCompose(cfg, w, Sendings(j, i, down), w1, Sendings(i, j, up), w1.(net := w1.net + Mail(j, up, w.now)));
  }

  /** then the caller takes what was sent to it, */
  lemma CallerTakes(cfg: Config, w: World, i: NodeId, down: seq<Envelope>, l: Overlay)
    requires i in w.nodes && w.nodes[i].id == i && Mail(i, down, w.now) <= w.net && Lists(down, l)
    ensures var w' := WithNode(w, w.nodes[i].(foreign := Absorb(w.nodes[i], l, w.now)));
            var run := Deliveries(i, down, w.now);
            ReachedByCalls(cfg, w, run, w') && Exec(cfg, w, run) == w'
  {
    ListIsAbsorb(w.nodes[i], down, l, w.now);
    assert forall e | e in down :: Msg(i, e, w.now) in Mail(i, down, w.now);
    ApplyListIsRun(cfg, w, i, down, w.now);
  }

  /** and so does the callee, which has heard the caller. */
  lemma CalleeTakes(cfg: Config, w: World, i: NodeId, j: NodeId, up: seq<Envelope>, r: Overlay)
    requires j in w.nodes && w.nodes[j].id == j && Mail(j, up, w.now) <= w.net && Lists(up, r)
    ensures var w' := WithNode(w, Touch(w.nodes[j], i, w.now).(foreign := Absorb(w.nodes[j], r, w.now)));
            var run := [Hear(j, i)] + Deliveries(j, up, w.now);
            ReachedByCalls(cfg, w, run, w') && Exec(cfg, w, run) == w'
  {
    HeardAbsorbs(w.nodes[j], i, up, r, w.now);
    assert forall e | e in up :: Msg(j, e, w.now) in Mail(j, up, w.now);
    UpdatesAreRun(cfg, w, j, i, up, w.now);
  }

  lemma HeardAbsorbs(n: Node, from: NodeId, envs: seq<Envelope>, o: Overlay, now: real)
    requires Lists(envs, o)
    ensures ApplyList(Touch(n, from, now), envs, now) == Touch(n, from, now).(foreign := Absorb(n, o, now))
  {
    ListIsAbsorb(Touch(n, from, now), envs, o, now);
    TouchAbsorbs(n, from, o, now);
  }

  lemma TouchAbsorbs(n: Node, from: NodeId, o: Overlay, now: real)
    ensures Absorb(Touch(n, from, now), o, now) == Absorb(n, o, now)
  {
    SameTaken(n, Touch(n, from, now), o, now);
  }

  lemma SameTaken(n: Node, m: Node, o: Overlay, now: real)
    requires m.id == n.id && m.foreign == n.foreign && m.evictedUntil == n.evictedUntil
    ensures Taken(m, o, now) == Taken(n, o, now) && Absorb(m, o, now) == Absorb(n, o, now)
  {
    assert Taken(m, o, now) == Taken(n, o, now);
  }

  lemma BothTake(
      cfg: Config, w: World, i: NodeId, j: NodeId, down: seq<Envelope>, up: seq<Envelope>, l: Overlay, r: Overlay)
    returns (run: seq<Step>)
    requires i in w.nodes && j in w.nodes && i != j && w.nodes[i].id == i && w.nodes[j].id == j
    requires Mail(i, down, w.now) + Mail(j, up, w.now) <= w.net && Lists(down, l) && Lists(up, r)
    ensures var a := w.nodes[i].(foreign := Absorb(w.nodes[i], l, w.now));
            var b := Touch(w.nodes[j], i, w.now).(foreign := Absorb(w.nodes[j], r, w.now));
            ReachedByCalls(cfg, w, run, WithNode(WithNode(w, a), b))
  {
    var w1 := WithNode(w, w.nodes[i].(foreign := Absorb(w.nodes[i], l, w.now)));
    CallerTakes(cfg, w, i, down, l);
    CalleeTakes(cfg, w1, i, j, up, r);
    var updates := [Hear(j, i)] + Deliveries(j, up, w.now);
    run := Deliveries(i, down, w.now) + updates;
    CallsCompose(cfg, w, Deliveries(i, down, w.now), w1, updates, Exec(cfg, w1, updates));
  }

  lemma ListedCanBeSent(n: Node, idx: Index, envs: seq<Envelope>)
    requires OverlayOk(n) && Lists(envs, Offer(n, idx))
    ensures forall e | e in envs :: BuildFor(n, e.key) == Some(e)
  {
    forall e | e in envs ensures BuildFor(n, e.key) == Some(e) {
      var k :| 0 <= k < |envs| && envs[k] == e;
    }
  }

  /** A reconcile in one instant is a run of single messages, heard calls and deliveries; so whatever
      holds of all runs of those, with anything else in between, holds of its calls taken one by one. */
  lemma ReconcileIsRun(cfg: Config, w: World, i: NodeId, j: NodeId, ns: set<string>) returns (run: seq<Step>)
    requires Inv(w) && i in w.nodes && j in w.nodes && i != j
    ensures ReachedByCalls(cfg, w, run, Meet(w, i, j, ns))
  {
    IdsMatch(w, i);
    IdsMatch(w, j);
    var x, y := OurView(w.nodes[i], ns), TheirView(w.nodes[j], i, ns);
    OfferBuilt(w.nodes[j], w.built, y);
    OfferBuilt(w.nodes[i], w.built, x);
    var down := Listed(Offer(w.nodes[j], y));
    var up := Listed(Offer(w.nodes[i], x));
    ListedCanBeSent(w.nodes[j], y, down);
    ListedCanBeSent(w.nodes[i], x, up);
    var first := BothSend(cfg, w, i, j, down, up);
    var w1 := w.(net := w.net + Mail(i, down, w.now) + Mail(j, up, w.now));
    var second := BothTake(cfg, w1, i, j, down, up, Offer(w.nodes[j], y), Offer(w.nodes[i], x));
    CallsCompose(cfg, w, first, w1, second, Meet(w1, i, j, ns));
    run := first + second;
  }

  /** So is a connect, OPEN included. */
  lemma ConnectIsRun(cfg: Config, w: World, i: NodeId, j: NodeId, offered: set<string>) returns (run: seq<Step>)
    requires Inv(w) && i in w.nodes && j in w.nodes && i != j
    ensures ReachedByCalls(cfg, w, run, Next(cfg, w, Connect(i, j, offered)))
  {
    var ns := Accepted(w.nodes[j], offered);
    var first := [OpenSession(j, i, ns), OpenSession(i, j, ns)];
    IdsMatch(w, i);
    IdsMatch(w, j);
    OpeningIsRun(cfg, w, i, j, ns);
    assert ReachedByCalls(cfg, w, first, Opened(w, i, j, ns));
    OpenedInv(w, i, j, ns);
    assert Next(cfg, w, Connect(i, j, offered)) == Meet(Opened(w, i, j, ns), i, j, ns);
    var second := ReconcileIsRun(cfg, Opened(w, i, j, ns), i, j, ns);
    CallsCompose(cfg, w, first, Opened(w, i, j, ns), second, Meet(Opened(w, i, j, ns), i, j, ns));
    run := first + second;
  }
}
