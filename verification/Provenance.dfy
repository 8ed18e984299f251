/** Where replicas come from: whatever the network did, a replica is what its origin registered, at the
    version its origin gave it. */
module Provenance {
  import opened Order
  import opened Envelope
  import opened Merkle
  import opened Node
  import opened Exchange
  import opened Protocol

  // ---- registries, by the local changes of a run ----

  /** What a local change leaves registered. */
  function Left(change: Change): Option<string> {
    match change
    case Put(payload) => Some(payload)
    case Delete => None
  }

  /** What is registered at `i` after the run: what the latest local change of the record left, or what
      was there at the start. */
  function Registered(w: World, run: seq<Step>, i: NodeId, lk: LocalKey): Option<string>
    decreases |run|
  {
    if run == [] then if i in w.nodes then Get(w.nodes[i].registry, lk) else None
    else if Last(run).LocalChange? && Last(run).i == i && Last(run).lk == lk then Left(Last(run).change)
    else Registered(w, Front(run), i, lk)
  }

  lemma MeetRegistry(w: World, i: NodeId, j: NodeId, ns: set<string>, l: NodeId)
    requires i in w.nodes && j in w.nodes && i != j && w.nodes[i].id == i && w.nodes[j].id == j && l in w.nodes
    ensures l in Meet(w, i, j, ns).nodes && Meet(w, i, j, ns).nodes[l].registry == w.nodes[l].registry
  {
    MeetNodes(w, i, j, ns);
  }

  lemma ConnectRegistry(cfg: Config, w: World, i: NodeId, j: NodeId, offered: set<string>, l: NodeId)
    requires i in w.nodes && j in w.nodes && i != j && w.nodes[i].id == i && w.nodes[j].id == j && l in w.nodes
    ensures var w' := Next(cfg, w, Connect(i, j, offered));
            l in w'.nodes && w'.nodes[l].registry == w.nodes[l].registry
  {
    ConnectShape(cfg, w, i, j, offered);
  }

  lemma ChangedRegistry(cfg: Config, w: World, s: Step, l: NodeId)
    requires s.LocalChange? && Enabled(w, s) && l in w.nodes && w.nodes[s.i].id == s.i
    ensures l in Next(cfg, w, s).nodes
    ensures Next(cfg, w, s).nodes[l].registry
         == (if s.i != l then w.nodes[l].registry
             else if s.change.Put? then w.nodes[l].registry[s.lk := s.change.payload]
             else w.nodes[l].registry - {s.lk})
  {
  }

  predicate Housekeeping(s: Step) {
    s.StampOne? || s.MintMembership? || s.Observe? || s.SaveState? || s.Collect? || s.Forget? || s.Reboot?
  }

  lemma HousekeptRegistry(cfg: Config, w: World, s: Step, l: NodeId)
    requires Enabled(w, s) && Housekeeping(s) && l in w.nodes && w.nodes[s.i].id == s.i
    ensures l in Next(cfg, w, s).nodes && Next(cfg, w, s).nodes[l].registry == w.nodes[l].registry
  {
  }

  lemma KeptRegistry(cfg: Config, w: World, s: Step, l: NodeId)
    requires Enabled(w, s) && !s.Reconcile? && !s.Connect? && !s.LocalChange? && !Housekeeping(s) && l in w.nodes
    requires forall i | i in w.nodes :: w.nodes[i].id == i
    ensures l in Next(cfg, w, s).nodes && Next(cfg, w, s).nodes[l].registry == w.nodes[l].registry
  {
  }

  /** Only local changes touch a registry. */
  lemma StepRegistry(cfg: Config, w: World, s: Step, l: NodeId, lk: LocalKey)
    requires Enabled(w, s) && l in w.nodes && forall i | i in w.nodes :: w.nodes[i].id == i
    ensures l in Next(cfg, w, s).nodes
    ensures Get(Next(cfg, w, s).nodes[l].registry, lk)
         == (if s.LocalChange? && s.i == l && s.lk == lk then Left(s.change) else Get(w.nodes[l].registry, lk))
  {
    if s.Reconcile? {
      MeetRegistry(w, s.i, s.peer, w.nodes[s.i].sessions[s.peer].namespaces, l);
    } else if s.Connect? {
      ConnectRegistry(cfg, w, s.i, s.peer, s.offered, l);
    } else if s.LocalChange? {
      ChangedRegistry(cfg, w, s, l);
    } else if Housekeeping(s) {
      HousekeptRegistry(cfg, w, s, l);
    } else {
      KeptRegistry(cfg, w, s, l);
    }
  }

  lemma NamesMatch(w: World)
    requires Inv(w)
    ensures forall i | i in w.nodes :: w.nodes[i].id == i
  {
  }

  lemma {:induction false} RegistryIsHistory(cfg: Config, w: World, run: seq<Step>, i: NodeId, lk: LocalKey)
    requires Inv(w) && Valid(cfg, w, run) && i in w.nodes
    ensures i in Exec(cfg, w, run).nodes && Get(Exec(cfg, w, run).nodes[i].registry, lk) == Registered(w, run, i, lk)
    decreases |run|
  {
    if run != [] {
      RegistryIsHistory(cfg, w, Front(run), i, lk);
      RunKeepsInv(cfg, w, Front(run));
      NamesMatch(Exec(cfg, w, Front(run)));
      StepRegistry(cfg, Exec(cfg, w, Front(run)), Last(run), i, lk);
    }
  }

  // ---- versions, by the steps that mint them ----

  /** The step gives the record a version: a local change of it, or its stamp. */
  predicate Mints(s: Step, i: NodeId, lk: LocalKey) {
    (s.LocalChange? || s.StampOne?) && s.i == i && s.lk == lk
  }

  /** The version a record has in a saved state; a tombstone shadows a live one. */
  function SavedVersion(n: Node, lk: LocalKey): Option<Version> {
    if lk in n.tombstones then Some(n.tombstones[lk].version) else Get(n.localVersions, lk)
  }

  /** `e` carries the version its origin minted in the step before `t`, or had at the start, and what was
      registered then: the payload, or nothing, as a tombstone, when the record had just been deleted. */
  ghost predicate MintedAt(cfg: Config, w: World, run: seq<Step>, t: nat, e: Envelope)
    requires Valid(cfg, w, run) && t <= |run|
  {
    var o, lk, u := e.key.origin, LocalOf(e.key), At(cfg, w, run, t);
    && o in u.nodes && o in w.nodes
    && (t > 0 ==> Mints(run[t - 1], o, lk) && e.version == Version(u.nodes[o].clock, o))
    && (t == 0 ==> SavedVersion(w.nodes[o], lk) == Some(e.version))
    && (t > 0 ==> (e.tombstone <==> run[t - 1].LocalChange? && run[t - 1].change.Delete?))
    && (t == 0 ==> (e.tombstone <==> lk in w.nodes[o].tombstones))
    && (!e.tombstone ==> e.payload == Registered(w, run[..t], o, lk) != None)
    && (e.tombstone ==> e.payload == None)
  }

  /** The one envelope a step adds. */
  predicate Adds(s: Step, n': Node, e: Envelope) {
    && e.key.origin == n'.id && Mints(s, n'.id, LocalOf(e.key)) && e.version == Version(n'.clock, n'.id)
    && (e.tombstone <==> s.LocalChange? && s.change.Delete?)
    && (e.tombstone ==> e.payload == None)
    && (!e.tombstone ==> e.payload == Get(n'.registry, LocalOf(e.key)) != None)
  }

  lemma ChangeAdds(n: Node, s: Step, e: Envelope)
    requires s.LocalChange? && s.i == n.id
    requires BuildLocal(Mutate(n, s.wall, s.lk, s.change), s.lk) == Some(e)
    ensures Adds(s, Mutate(n, s.wall, s.lk, s.change), e)
  {
    assert LocalOf(KeyOf(n.id, s.lk)) == s.lk;
  }

  lemma StampAdds(n: Node, s: Step, e: Envelope)
    requires s.StampOne? && s.i == n.id
    requires BuildLocal(Stamp(n, s.wall, s.lk), s.lk) == Some(e) && BuildLocal(n, s.lk) != Some(e)
    ensures Adds(s, Stamp(n, s.wall, s.lk), e)
  {
    assert LocalOf(KeyOf(n.id, s.lk)) == s.lk;
  }

  lemma StepAdds(cfg: Config, w: World, s: Step, e: Envelope)
    requires Inv(w) && Enabled(w, s) && e in Next(cfg, w, s).built && e !in w.built
    ensures (s.LocalChange? || s.StampOne?) && s.i in w.nodes && s.i in Next(cfg, w, s).nodes
    ensures Next(cfg, w, s).nodes[s.i].id == s.i && Adds(s, Next(cfg, w, s).nodes[s.i], e)
  {
    NothingElseBuilds(cfg, w, s);
    IdsMatch(w, s.i);
    assert NodeInv(w.nodes[s.i], w.built);
    if s.LocalChange? { ChangeAdds(w.nodes[s.i], s, e); } else { StampAdds(w.nodes[s.i], s, e); }
  }

  lemma BuiltAtStart(cfg: Config, w: World, e: Envelope)
    requires Init(w) && e in w.built
    ensures MintedAt(cfg, w, [], 0, e)
  {
    var run: seq<Step> := [];
    assert run[..0] == run;
    assert BuildLocal(w.nodes[e.key.origin], LocalOf(e.key)) == Some(e);
  }

  lemma {:induction false} BuiltWasMinted(cfg: Config, w: World, run: seq<Step>, e: Envelope) returns (t: nat)
    requires Init(w) && Valid(cfg, w, run) && e in Exec(cfg, w, run).built
    ensures t <= |run| && MintedAt(cfg, w, run, t, e)
    decreases |run|
  {
    if run == [] {
      BuiltAtStart(cfg, w, e);
      t := 0;
    } else if e in Exec(cfg, w, Front(run)).built {
      t := BuiltWasMinted(cfg, w, Front(run), e);
      assert Front(run)[..t] == run[..t];
    } else {
      t := |run|;
      JustMinted(cfg, w, run, e);
    }
  }

  lemma JustMinted(cfg: Config, w: World, run: seq<Step>, e: Envelope)
    requires Init(w) && run != [] && Valid(cfg, w, run)
    requires e in Exec(cfg, w, run).built && e !in Exec(cfg, w, Front(run)).built
    ensures MintedAt(cfg, w, run, |run|, e)
  {
    InitInv(w);
    RunInv(cfg, w, Front(run));
    StepAdds(cfg, Exec(cfg, w, Front(run)), Last(run), e);
    assert run[..|run|] == run;
    SameNodes(cfg, w, run);
    RegistryIsHistory(cfg, w, run, e.key.origin, LocalOf(e.key));
  }

  lemma {:induction false} SameNodes(cfg: Config, w: World, run: seq<Step>)
    requires Inv(w) && Valid(cfg, w, run)
    ensures Exec(cfg, w, run).nodes.Keys == w.nodes.Keys
    decreases |run|
  {
    if run != [] {
      SameNodes(cfg, w, Front(run));
      RunKeepsInv(cfg, w, Front(run));
      NamesMatch(Exec(cfg, w, Front(run)));
      StepNodes(cfg, Exec(cfg, w, Front(run)), Last(run));
    }
  }

  lemma StepNodes(cfg: Config, w: World, s: Step)
    requires Enabled(w, s) && forall i | i in w.nodes :: w.nodes[i].id == i
    ensures Next(cfg, w, s).nodes.Keys == w.nodes.Keys
  {
    if s.Reconcile? {
      MeetNodes(w, s.i, s.peer, w.nodes[s.i].sessions[s.peer].namespaces);
    } else if s.Connect? {
      ConnectShape(cfg, w, s.i, s.peer, s.offered);
    }
  }

  /** Which of two versions wins: the later one, and at the same time the one of the node whose id comes
      later, code point by code point. */
  lemma LaterWins(a: Version, b: Version)
    ensures a.ms > b.ms ==> After(a, b) && !After(b, a)
    ensures a.ms == b.ms ==> (After(a, b) <==> exists i: nat :: FirstDifference(b.node, a.node, i))
  {
    LessAtFirstDifference(b.node, a.node);
  }

  // ---- authority ----

  /** Authority over whole runs: whatever was duplicated, reordered or relayed, every replica is exactly an
      envelope its own origin served at some point of the run, with the payload that was registered there
      when its version was minted; no node stores its own origin; no replica's version exceeds the
      origin's clock, or the version the origin still holds for that record. */
  lemma Authority(cfg: Config, w: World, run: seq<Step>, i: NodeId, k: Key)
    requires Init(w) && Valid(cfg, w, run)
    requires i in Exec(cfg, w, run).nodes && k in Exec(cfg, w, run).nodes[i].foreign
    ensures var u := Exec(cfg, w, run);
            var e := u.nodes[i].foreign[k];
            && e.key == k && k.origin != i && k.origin in u.nodes
            && (exists t :: 0 <= t <= |run| && ServedByOriginAt(cfg, w, run, t, e))
            && (exists t :: 0 <= t <= |run| && MintedAt(cfg, w, run, t, e))
            && e.version.node == k.origin && e.version.ms <= u.nodes[k.origin].clock
            && (OwnsRecord(u.nodes[k.origin], LocalOf(k)) ==>
                  !After(e.version, OwnVersion(u.nodes[k.origin], LocalOf(k))))
  {
    RunInv(cfg, w, run);
    var u := Exec(cfg, w, run);
    var e := u.nodes[i].foreign[k];
    assert NodeInv(u.nodes[i], u.built);
    assert NodeInv(u.nodes[k.origin], u.built);
    BuiltWasServed(cfg, w, run, e);
    var t := BuiltWasMinted(cfg, w, run, e);
    if OwnsRecord(u.nodes[k.origin], LocalOf(k)) {
      VersionOrder(e.version, e.version, e.version);
    }
  }

  /** And what an origin serves of a record now is what is registered now, or a tombstone. */
  lemma OriginServesRegistered(cfg: Config, w: World, run: seq<Step>, o: NodeId, lk: LocalKey)
    requires Init(w) && Valid(cfg, w, run) && o in w.nodes
    ensures var u := Exec(cfg, w, run);
            && o in u.nodes
            && match BuildLocal(u.nodes[o], lk)
               case Some(e) => e.payload == if e.tombstone then None else Registered(w, run, o, lk)
               case None => lk !in u.nodes[o].tombstones
  {
    InitInv(w);
    RunKeepsInv(cfg, w, run);
    RegistryIsHistory(cfg, w, run, o, lk);
  }

  /** One version, one envelope: two replicas of a record with the same version are equal, on any
      two nodes. */
  lemma ReplicasAgree(cfg: Config, w: World, run: seq<Step>, i: NodeId, j: NodeId, k: Key)
    requires Init(w) && Valid(cfg, w, run)
    requires var u := Exec(cfg, w, run);
             && i in u.nodes && j in u.nodes && k in u.nodes[i].foreign && k in u.nodes[j].foreign
             && u.nodes[i].foreign[k].version == u.nodes[j].foreign[k].version
    ensures var u := Exec(cfg, w, run); u.nodes[i].foreign[k] == u.nodes[j].foreign[k]
  {
    RunInv(cfg, w, run);
    var u := Exec(cfg, w, run);
    assert NodeInv(u.nodes[i], u.built) && NodeInv(u.nodes[j], u.built);
  }
}
