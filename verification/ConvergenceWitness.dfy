/** A replica that its origin has already forgotten is something the cluster can run into, and then
    meeting each other does not make the nodes agree. */
module ConvergenceWitness {
  import opened Envelope
  import opened Node
  import opened Exchange
  import opened Protocol
  import opened SmallCluster
  import opened Convergence

  /** C has deleted its record and, long after, forgotten the deletion; A and B never heard of it. */
  function Orphaned(): World {
    Stageful(0.0, Replica(A, Some(ENV), Sessions(C, 0.0, B, 0.0), map[]),
             Replica(B, Some(ENV), Sessions(C, 0.0, A, 0.0), map[]),
             Owner(Forgotten, Sessions(A, 0.0, B, 0.0)), {}, {ENV, TOMB})
  }

  lemma OwnerForgets(cfg: Config, sessions: map<NodeId, Peer>) returns (wall: int)
    ensures Gc(cfg, Owner(Deleted, sessions), wall) == Owner(Forgotten, sessions)
  {
    wall := TOMB.version.ms + cfg.RetentionMs() + 1;
    var n := Owner(Deleted, sessions);
    var kept := map lk | lk in n.tombstones && !Expired(cfg, n.tombstones[lk].deletedAt, wall) :: n.tombstones[lk];
    assert kept == map[];
    assert RECORD in n.tombstones && kept != n.tombstones;
    assert GcForeign(cfg, n.foreign, wall) == map[];
  }

  lemma OrphanedIsReachable(cfg: Config)
    ensures Reachable(cfg, Orphaned())
  {
    var others := Sessions(A, 0.0, B, 0.0);
    DeletionIsReachable(cfg, 0.0);
    var wall := OwnerForgets(cfg, others);
    var a, b := Replica(A, Some(ENV), Sessions(C, 0.0, B, 0.0), map[]),
                Replica(B, Some(ENV), Sessions(C, 0.0, A, 0.0), map[]);
    assert JustAfterDeletion(0.0) == Stageful(0.0, a, b, Owner(Deleted, others), {}, {ENV, TOMB});
    SetC(0.0, a, b, Owner(Deleted, others), {}, {ENV, TOMB}, Owner(Forgotten, others));
    ReachableNext(cfg, JustAfterDeletion(0.0), Collect(C, wall));
  }

  lemma OneInScope(n: Node, env: Option<Envelope>)
    requires Serves(n, env)
    ensures forall k | BuildFor(n, k).Some? :: k.dataset in D
  {
    forall k | BuildFor(n, k).Some? ensures k.dataset in D {
      assert BuildFor(n, k) == Get(One(env), k);
    }
  }

  lemma OrphanedWithin()
    ensures Within(Orphaned(), D)
  {
    var w := Orphaned();
    ReplicaServes(A, Some(ENV), Sessions(C, 0.0, B, 0.0), map[]);
    ReplicaServes(B, Some(ENV), Sessions(C, 0.0, A, 0.0), map[]);
    OwnerServesIts(Forgotten, Sessions(A, 0.0, B, 0.0));
    OneInScope(w.nodes[A], Some(ENV));
    OneInScope(w.nodes[B], Some(ENV));
    OneInScope(w.nodes[C], None);
    assert w.nodes.Keys == {A, B, C};
  }

  lemma OrphanedNotBacked()
    ensures !Backed(Orphaned()) && NothingNewInFlight(Orphaned()) && Unsuppressed(Orphaned())
  {
    var w := Orphaned();
    assert A in w.nodes && KEY in w.nodes[A].foreign && !OwnsRecord(w.nodes[C], LocalOf(KEY));
  }

  lemma OrphanedIsReady(cfg: Config)
    ensures Ready(Orphaned()) && Within(Orphaned(), D) && NothingNewInFlight(Orphaned()) && !Backed(Orphaned())
  {
    OrphanedIsReachable(cfg);
    ReachableInv(cfg, Orphaned());
    OrphanedWithin();
    OrphanedNotBacked();
  }

  // ---- a calm run in which every two nodes meet ----

  lemma MeetingsStutter(cfg: Config)
    ensures var w := Orphaned();
            && Enabled(w, Reconcile(A, B)) && Next(cfg, w, Reconcile(A, B)) == w
            && Enabled(w, Reconcile(A, C)) && Next(cfg, w, Reconcile(A, C)) == w
            && Enabled(w, Reconcile(B, C)) && Next(cfg, w, Reconcile(B, C)) == w
  {
    AMeetsBAgain(cfg);
    AMeetsCAgain(cfg);
    BMeetsCAgain(cfg);
  }

  lemma AMeetsBAgain(cfg: Config)
    ensures Enabled(Orphaned(), Reconcile(A, B)) && Next(cfg, Orphaned(), Reconcile(A, B)) == Orphaned()
  {
    var s := ReplicasReconcile(cfg, Orphaned(), A, B, Some(ENV), Sessions(C, 0.0, B, 0.0), Sessions(C, 0.0, A, 0.0));
    assert Peered(Sessions(C, 0.0, A, 0.0), A, 0.0) == Sessions(C, 0.0, A, 0.0);
    Unchanged(Orphaned(), B);
  }

  lemma AMeetsCAgain(cfg: Config)
    ensures Enabled(Orphaned(), Reconcile(A, C)) && Next(cfg, Orphaned(), Reconcile(A, C)) == Orphaned()
  {
    var s := ReplicaReconciles(cfg, Orphaned(), A, Some(ENV), Sessions(C, 0.0, B, 0.0), Forgotten,
                               Sessions(A, 0.0, B, 0.0));
    assert Peered(Sessions(A, 0.0, B, 0.0), A, 0.0) == Sessions(A, 0.0, B, 0.0);
    Unchanged(Orphaned(), A);
    Unchanged(Orphaned(), C);
  }

  lemma BMeetsCAgain(cfg: Config)
    ensures Enabled(Orphaned(), Reconcile(B, C)) && Next(cfg, Orphaned(), Reconcile(B, C)) == Orphaned()
  {
    var s := ReplicaReconciles(cfg, Orphaned(), B, Some(ENV), Sessions(C, 0.0, A, 0.0), Forgotten,
                               Sessions(A, 0.0, B, 0.0));
    assert Peered(Sessions(A, 0.0, B, 0.0), B, 0.0) == Sessions(A, 0.0, B, 0.0);
    Unchanged(Orphaned(), B);
    Unchanged(Orphaned(), C);
  }

  lemma Unchanged(w: World, i: NodeId)
    requires i in w.nodes && w.nodes[i].id == i
    ensures WithNode(w, w.nodes[i]) == w
  {
    assert w.nodes[i := w.nodes[i]] == w.nodes;
  }

  const MEETINGS: seq<Step> := [Reconcile(A, B), Reconcile(A, C), Reconcile(B, C)]

  /** Steps that change nothing make a run that changes nothing. */
  lemma {:induction false} Stutters(cfg: Config, w: World, run: seq<Step>)
    requires forall s | s in run :: Enabled(w, s) && Next(cfg, w, s) == w
    ensures Valid(cfg, w, run) && Exec(cfg, w, run) == w
    decreases |run|
  {
    if run != [] {
      assert Last(run) in run && forall s | s in Front(run) :: s in run;
      Stutters(cfg, w, Front(run));
    }
  }

  lemma {:induction false} CalmStutters(cfg: Config, w: World, run: seq<Step>)
    requires forall s | s in run :: s.Reconcile? && Enabled(w, s) && Next(cfg, w, s) == w
    ensures Valid(cfg, w, run) && CalmRun(cfg, w, run)
    decreases |run|
  {
    Stutters(cfg, w, run);
    if run != [] {
      assert Last(run) in run && forall s | s in Front(run) :: s in run;
      CalmStutters(cfg, w, Front(run));
    }
  }

  lemma StuttersMeet(cfg: Config, w: World, run: seq<Step>, d: set<string>)
    requires forall s | s in run :: s.Reconcile? && Enabled(w, s) && Next(cfg, w, s) == w
    requires forall i, j | i in w.nodes && j in w.nodes && i != j ::
               exists t :: 0 <= t < |run| && Meets(w, run[t], i, j, d)
    ensures Valid(cfg, w, run) && CalmRun(cfg, w, run) && EveryPairMeets(cfg, w, run, d)
  {
    CalmStutters(cfg, w, run);
    forall i, j | i in w.nodes && j in w.nodes && i != j
      ensures exists t :: 0 <= t < |run| && MeetsAt(cfg, w, run, t, i, j, d)
    {
      var t :| 0 <= t < |run| && Meets(w, run[t], i, j, d);
      assert forall s | s in run[..t] :: s in run;
      Stutters(cfg, w, run[..t]);
      assert MeetsAt(cfg, w, run, t, i, j, d);
    }
  }

  lemma AllMeet(i: NodeId, j: NodeId)
    requires i in Orphaned().nodes && j in Orphaned().nodes && i != j
    ensures exists t :: 0 <= t < |MEETINGS| && Meets(Orphaned(), MEETINGS[t], i, j, D)
  {
    var w := Orphaned();
    assert w.nodes.Keys == {A, B, C};
    assert Meets(w, MEETINGS[0], A, B, D) && Meets(w, MEETINGS[1], A, C, D) && Meets(w, MEETINGS[2], B, C, D);
    assert Meets(w, MEETINGS[0], B, A, D) && Meets(w, MEETINGS[1], C, A, D) && Meets(w, MEETINGS[2], C, B, D);
  }

  lemma MeetingsAreCalm(cfg: Config)
    ensures Valid(cfg, Orphaned(), MEETINGS) && CalmRun(cfg, Orphaned(), MEETINGS)
    ensures EveryPairMeets(cfg, Orphaned(), MEETINGS, D)
  {
    MeetingsStutter(cfg);
    forall i, j | i in Orphaned().nodes && j in Orphaned().nodes && i != j
      ensures exists t :: 0 <= t < |MEETINGS| && Meets(Orphaned(), MEETINGS[t], i, j, D)
    {
      AllMeet(i, j);
    }
    StuttersMeet(cfg, Orphaned(), MEETINGS, D);
  }

  /** Convergence fails in earnest: a reachable cluster, nothing in flight, a calm run in which every
      two nodes meet, and still the indexes do not agree. */
  lemma OrphansPreventAgreement(cfg: Config)
    ensures exists w, run :: Reachable(cfg, w) && Disagrees(cfg, w, run, D)
  {
    OrphanedIsReachable(cfg);
    OrphanedIsReady(cfg);
    MeetingsAreCalm(cfg);
    ConvergesIffBacked(cfg, Orphaned(), D, MEETINGS);
    assert Disagrees(cfg, Orphaned(), MEETINGS, D);
  }

  ghost predicate Disagrees(cfg: Config, w: World, run: seq<Step>, d: set<string>) {
    && Ready(w) && Within(w, d) && NothingNewInFlight(w)
    && Valid(cfg, w, run) && CalmRun(cfg, w, run) && EveryPairMeets(cfg, w, run, d)
    && !IndexesAgree(w, Exec(cfg, w, run))
  }
}
