/** The membership control plane's object: the roster it updates in place, what it persists, and the
    node store whose sessions it drives. */
module MembershipStore {
  import opened Envelope
  import opened Node
  import opened Membership
  import ClusterStore

  class MembershipStore {
    const store: ClusterStore.ClusterStore
    const me: NodeId
    const advertise: string
    var roster: Roster
    var saved: SavedRoster

    ghost predicate Valid()
      reads this, store
    {
      me == store.id && RosterOk(roster)
    }

    /** Seed the roster from what was saved: rejoin the cluster, keep recent removals, and keep the
        version clock above our own saved version. */
    constructor Restart(store: ClusterStore.ClusterStore, advertise: string, saved: SavedRoster, wall: int)
      requires RosterOk(saved.peers)
      modifies store
      ensures Valid() && this.store == store && this.advertise == advertise && this.saved == saved
      ensures var n := old(store.Abs());
              && (saved.cluster.None? ==> roster == map[] && store.Abs() == n)
              && (saved.cluster.Some? ==>
                    && store.Abs() == n.(clock := store.clock) && store.clock >= n.clock
                    && roster == Restored(store.cfg, store.id, advertise, saved, Version(store.clock, store.id), wall)
                    && (saved.mine.Some? ==> store.clock == Max(n.clock, saved.mine.value.ms)))
    {
      this.store, this.me, this.advertise, this.saved := store, store.id, advertise, saved;
      roster := map[];
      new;
      if saved.cluster.Some? {
        var own: Version;
        if saved.mine.Some? {
          store.ObserveVersion(saved.mine.value.ms);
          own := saved.mine.value;
        } else {
          own := store.NextVersion(wall);
        }
        roster := (saved.peers - {me})[me := Member(me, saved.cluster, advertise, own, false)];
        var pruned := GcMembership(wall);
      }
    }

    method CurrentCluster() returns (c: Option<string>)
      ensures c == ClusterOf(me, roster)
    {
      c := if me in roster then roster[me].cluster else None;
    }

    method Persist()
      requires Valid()
      modifies this`saved, store`disk
      ensures saved == Persisted(me, roster)
      ensures saved.cluster == (if me in roster then roster[me].cluster else None)
      ensures saved.mine == VersionIn(roster, me)
      ensures forall i ::
                Get(saved.peers, i)
                == (if i in roster && i != me && roster[i].cluster == saved.cluster then Some(roster[i]) else None)
      ensures store.Abs() == Save(old(store.Abs()))
    {
      var c := CurrentCluster();
      saved := SavedRoster(c, VersionIn(roster, me),
                           map i | i in roster && i != me && roster[i].cluster == c :: roster[i]);
      store.SaveState();
    }

    /** Drop the sessions with `gone`, one by one. */
    method DisconnectAll(gone: set<NodeId>, now: real)
      modifies store`sessions, store`foreign, store`evictedUntil
      ensures store.Abs() == Evict(store.cfg, old(store.Abs()), gone, now)
    {
      ghost var n := store.Abs();
      ghost var done: set<NodeId> := {};
      var todo := gone;
      ClusterStore.EvictNobody(store.cfg, n, now);
      while todo != {}
        invariant todo <= gone && done == gone - todo
        invariant store.Abs() == Evict(store.cfg, n, done, now)
        decreases |todo|
      {
        var p :| p in todo;
        var existed := store.DisconnectPeer(p, now);
        ClusterStore.EvictTwice(store.cfg, n, done, {p}, now);
        todo, done := todo - {p}, done + {p};
      }
      assert done == gone;
    }

    /** We are no longer in any cluster. */
    method BecomeStandalone(now: real)
      requires Valid()
      modifies this`roster, this`saved, store`sessions, store`foreign, store`evictedUntil, store`disk
      ensures Valid() && roster == map[] && saved == Persisted(me, roster)
      ensures store.Abs() == Save(Evict(store.cfg, old(store.Abs()), old(roster).Keys - {me}, now))
    {
      var members := roster.Keys - {me};
      roster := map[];
      DisconnectAll(members, now);
      Persist();
    }

    /** Last-writer-wins merge of a batch of records. */
    method MergeBatch(recs: seq<Member>, now: real) returns (changed: bool)
      requires Valid()
      modifies this`roster, this`saved, store`sessions, store`foreign, store`evictedUntil, store`disk
      ensures Valid() && roster == Merge(me, old(roster), recs) && MergeLeaves(me, old(roster), recs, roster)
      ensures HoldsOurRemoval(me, old(roster), recs) ==>
                && changed && saved == SavedRoster(None, None, map[])
                && forall i | i in old(roster) && i != me :: i !in store.sessions
      ensures changed == (OustedBy(me, old(roster), recs) || roster != old(roster))
      ensures changed ==> saved == Persisted(me, roster)
      ensures !changed ==> saved == old(saved) && store.Abs() == old(store.Abs())
      ensures changed ==>
                store.Abs() == Save(
                  if OustedBy(me, old(roster), recs) then
                    Evict(store.cfg, old(store.Abs()), MergeList(me, old(roster), recs).Keys - {me}, now)
                  else old(store.Abs()))
    {
      ghost var r := roster;
      MergeMeans(me, r, recs);
      OustedIsRemoval(me, r, recs);
      MembersStayListed(me, r, recs);
      changed := false;
      var evictedSelf := false;
      for i := 0 to |recs|
        invariant roster == MergeList(me, r, recs[..i]) && RosterOk(roster)
        invariant evictedSelf == OustedBy(me, r, recs[..i])
        invariant changed == (roster != r)
        invariant saved == old(saved) && store.Abs() == old(store.Abs())
      {
        assert recs[..i + 1][..i] == recs[..i];
        var rec := recs[i];
        MergeKeepsNewest(me, r, recs[..i], rec.id);
        OustedByMore(me, r, recs[..i], rec);
        assert recs[..i + 1] == recs[..i] + [rec];
        if Newer(rec.version, VersionIn(roster, rec.id)) {
          if rec.id == me {
            evictedSelf := evictedSelf || rec.removed;
          } else {
            MergeMoves(me, r, recs[..i], rec);
            roster := roster[rec.id := rec];
            changed := true;
          }
        }
      }
      assert recs[..|recs|] == recs;
      if evictedSelf {
        BecomeStandalone(now);
        changed := true;
      } else if changed {
        Persist();
      }
    }

    // ---- delta anti-entropy ----

    /** The records we hold for `ids`, one each, in some order. */
    method RecordsFor(ids: set<NodeId>) returns (recs: seq<Member>)
      requires RosterOk(roster)
      ensures ListsFor(recs, roster, ids)
    {
      recs := [];
      var todo := ids;
      while todo != {}
        invariant todo <= ids && ListsFor(recs, roster, ids - todo)
        decreases |todo|
      {
        var i :| i in todo;
        if i in roster {
          recs := recs + [roster[i]];
        }
        todo := todo - {i};
      }
      assert ids - todo == ids;
    }

    /** Pull what is newer at one peer. When both calls get through, the roster ends exactly as after
        merging everything the peer has, in any order. A standalone node asks nobody. */
    method ReconcileWith(peer: MembershipStore, now: real, reach: nat)
      requires Valid() && peer.Valid()
      modifies this`roster, this`saved, store`sessions, store`foreign, store`evictedUntil, store`disk
      ensures Valid()
      ensures ClusterOf(me, old(roster)).None? || reach < 2 ==> roster == old(roster)
      ensures ClusterOf(me, old(roster)).Some? && reach >= 2 ==>
                forall all | ListsFor(all, old(peer.roster), old(peer.roster).Keys) ::
                  roster == Merge(me, old(roster), all)
    {
      var c := CurrentCluster();
      if c.None? { return; }
      if reach < 1 { return; }
      ghost var r, s := roster, peer.roster;
      var want := Wanted(roster, Versions(peer.roster));
      if want == {} {
        forall all | ListsFor(all, s, s.Keys) ensures r == Merge(me, r, all) {
          DeltaIsFull(me, r, s, [], all);
        }
        return;
      }
      if reach < 2 { return; }
      var recs := peer.RecordsFor(want);
      forall all | ListsFor(all, s, s.Keys) ensures Merge(me, r, recs) == Merge(me, r, all) {
        DeltaIsFull(me, r, s, recs, all);
      }
      var changed := MergeBatch(recs, now);
    }

    // ---- removing and leaving ----

    /** Put tombstones for the named nodes, drop their sessions, persist. Each tombstone's node is told
        at the tombstone's address, and all tombstones are pushed to `pushedTo`. */
    method SetRemove(targets: seq<Target>, now: real) returns (tombstones: seq<Member>, pushedTo: map<NodeId, string>)
      requires Valid()
      modifies this`roster, this`saved, store`clock, store`sessions, store`foreign, store`evictedUntil, store`disk
      ensures Valid()
      ensures (roster, store.clock) == RemoveAll(me, old(roster), old(store.clock), targets)
      ensures saved == Persisted(me, roster)
      ensures store.Abs() == Save(Evict(store.cfg, old(store.Abs()).(clock := store.clock), TargetIds(targets), now))
      ensures tombstones == RemovalTombs(me, old(roster), old(store.clock), targets)
      ensures pushedTo == if tombstones == [] then map[] else PushTargets(me, roster)
    {
      ghost var n, r := store.Abs(), roster;
      ghost var done: set<NodeId> := {};
      tombstones := [];
      ClusterStore.EvictNobody(store.cfg, n, now);
      for k := 0 to |targets|
        invariant Valid() && done == TargetIds(targets[..k])
        invariant (roster, store.clock) == RemoveAll(me, r, n.clock, targets[..k])
        invariant tombstones == RemovalTombs(me, r, n.clock, targets[..k])
        invariant store.Abs() == Evict(store.cfg, n.(clock := store.clock), done, now)
      {
        ghost var m := store.Abs();
        NextTarget(me, r, n.clock, targets, k);
        if targets[k].id != "" {
          var tomb := RemoveOne(targets[k], now);
          tombstones := tombstones + [tomb];
          EvictLater(store.cfg, n, m, done, targets[k].id, store.clock, now);
          done := done + {targets[k].id};
        }
      }
      assert targets[..|targets|] == targets;
      Persist();
      pushedTo := map[];
      if tombstones != [] {
        pushedTo := RosterTargets();
      }
    }

    /** The addresses of the live members of our cluster. */
    method RosterTargets() returns (targets: map<NodeId, string>)
      ensures targets == PushTargets(me, roster)
      ensures ClusterOf(me, roster).Some? ==> forall i :: i in targets <==> Desired(me, roster, i)
      ensures forall i | i in targets :: i in roster && targets[i] == roster[i].address
    {
      var c := CurrentCluster();
      targets := map i | i in roster && i != me && !roster[i].removed
                              && roster[i].cluster == c && roster[i].address != "" ::
          roster[i].address;
    }

    method RemoveOne(t: Target, now: real) returns (tomb: Member)
      requires Valid() && t.id != ""
      modifies this`roster, store`clock, store`sessions, store`foreign, store`evictedUntil
      ensures Valid() && tomb == RemoveTomb(me, old(roster), t.id, t.address, old(store.clock), t.wall)
      ensures roster == old(roster)[t.id := tomb] && store.clock == tomb.version.ms
      ensures tomb.id == t.id && tomb.removed && tomb.cluster == ClusterOf(me, old(roster)) && tomb.version.node == me
      ensures tomb.address == if t.id in old(roster) then old(roster)[t.id].address else t.address
      ensures t.id in old(roster) ==> tomb.version.ms > old(roster)[t.id].version.ms
      ensures store.Abs() == Evict(store.cfg, old(store.Abs()).(clock := tomb.version.ms), {t.id}, now)
    {
      var addr := if t.id in roster then roster[t.id].address else t.address;
      var v := store.NextVersionAfter(t.wall, Floor(roster, t.id));
      var c := CurrentCluster();
      tomb := Member(t.id, c, addr, v, true);
      roster := roster[t.id := tomb];
      var existed := store.DisconnectPeer(t.id, now);
    }

    /** A peer leaves our cluster on its own accord. Its tombstone is pushed to `pushedTo`. */
    method HandleEvictSelf(from: NodeId, wall: int, now: real) returns (ok: bool, pushedTo: map<NodeId, string>)
      requires Valid()
      modifies this`roster, this`saved, store`clock, store`sessions, store`foreign, store`evictedUntil, store`disk
      ensures Valid() && ok == (from != "")
      ensures !ok ==>
                roster == old(roster) && saved == old(saved) && store.Abs() == old(store.Abs()) && pushedTo == map[]
      ensures ok ==> pushedTo == PushTargets(me, roster)
      ensures ok ==>
                var tomb := LeaveTomb(me, old(roster), from, old(store.clock), wall);
                && tomb.id == from && tomb.removed && tomb.version == Version(store.clock, me)
                && tomb.cluster
                   == (if from in old(roster) then old(roster)[from].cluster else ClusterOf(me, old(roster)))
                && tomb.address == (if from in old(roster) then old(roster)[from].address else "")
                && roster == old(roster)[from := tomb] && saved == Persisted(me, roster)
                && store.Abs() == Save(Evict(store.cfg, old(store.Abs()).(clock := tomb.version.ms), {from}, now))
    {
      if from == "" {
        return false, map[];
      }
      var v := store.NextVersionAfter(wall, Floor(roster, from));
      var c := CurrentCluster();
      roster := roster[from := Member(from, if from in roster then roster[from].cluster else c,
                                      if from in roster then roster[from].address else "", v, true)];
      var existed := store.DisconnectPeer(from, now);
      Persist();
      pushedTo := RosterTargets();
      ok := true;
    }

    /** Leave a cluster: its live members lose their sessions with us, its records go; our own record
        and what we know of other clusters stay. */
    method LeaveOld(cluster: string, now: real)
      requires Valid()
      modifies this`roster, store`sessions, store`foreign, store`evictedUntil
      ensures Valid()
      ensures roster == map i | i in old(roster) && (i == me || old(roster)[i].cluster != Some(cluster)) ::
                          old(roster)[i]
      ensures store.Abs() == Evict(store.cfg, old(store.Abs()), LiveMembers(me, old(roster), cluster), now)
      ensures forall i | i in store.sessions :: i !in LiveMembers(me, old(roster), cluster)
    {
      var members := set i | i in roster && i != me && roster[i].cluster == Some(cluster) && !roster[i].removed;
      DisconnectAll(members, now);
      roster := map i | i in roster && (i == me || roster[i].cluster != Some(cluster)) :: roster[i];
    }

    method GcMembership(wall: int) returns (pruned: nat)
      modifies this`roster
      ensures roster == Collected(store.cfg, old(roster), wall)
      ensures forall i ::
                i in roster <==>
                  && i in old(roster)
                  && (old(roster)[i].removed ==> wall - old(roster)[i].version.ms <= store.cfg.RetentionMs())
      ensures forall i | i in roster :: roster[i] == old(roster)[i]
      ensures pruned == |old(roster)| - |roster|
    {
      var gone := set i | i in roster && Forgettable(store.cfg, roster[i], wall);
      CountCollected(store.cfg, roster, wall);
      roster := map i | i in roster && i !in gone :: roster[i];
      assert roster == Collected(store.cfg, old(roster), wall);
      pruned := |gone|;
    }

    // ---- driving the sessions ----

    /** Connect the missing members and drop the removed or absent ones. `lines` tells which store
        answers at an address and how many calls to it get through; nobody answers elsewhere. */
    method ReconcileConnections(lines: map<string, Line>, wall: int, now: real)
      returns (dialled: set<NodeId>, dropped: set<NodeId>)
      requires Valid() && Dialable(lines)
      modifies store, Remotes(lines)
      ensures Valid() && Dialable(lines)
      ensures store.sessions.Keys == Reconciled(me, roster, old(store.sessions.Keys), Answers(lines))
      ensures ClusterOf(me, roster).Some? ==>
                && dialled == Dialled(me, roster, old(store.sessions.Keys), Answers(lines))
                && dropped == Dropped(me, roster, old(store.sessions.Keys))
      ensures ClusterOf(me, roster).None? ==> dialled == {} && dropped == {} && store.Abs() == old(store.Abs())
    {
      dialled, dropped := {}, {};
      var c := CurrentCluster();
      if c.None? { return; }
      var known := store.sessions.Keys;
      var desired := DesiredPeers(me, roster);
      dialled := Dial(desired - known, lines, wall, now);
      AnsweringIsDialled(me, roster, known, Answers(lines));
      dropped := set i | i in known && i !in desired && RemovedOrAbsent(me, roster, i);
      assert dropped == Dropped(me, roster, known);
      DropAll(dropped, lines, now);
    }

    /** The stores behind the lines are well-formed, hash like ours and are not our own. */
    ghost predicate Dialable(lines: map<string, Line>)
      reads store, Remotes(lines)
    {
      && store.cfg.buckets > 0 && OverlayOk(store.Abs()) && ClusterStore.CleanNode(store.Abs())
      && forall a | a in lines ::
           var r := lines[a].remote;
           && r != store && r.sha == store.sha && r.cfg.buckets > 0 && OverlayOk(r.Abs())
           && ClusterStore.CleanNode(r.Abs())
    }

    method DropAll(gone: set<NodeId>, lines: map<string, Line>, now: real)
      requires Dialable(lines)
      modifies store`sessions, store`foreign, store`evictedUntil
      ensures Dialable(lines) && store.sessions.Keys == old(store.sessions.Keys) - gone
    {
      ghost var n := store.Abs();
      DisconnectAll(gone, now);
    }

    method Dial(missing: map<NodeId, string>, lines: map<string, Line>, wall: int, now: real)
      returns (dialled: set<NodeId>)
      requires Dialable(lines)
      modifies store, Remotes(lines)
      ensures Dialable(lines) && dialled == Answering(missing, {}, Answers(lines))
      ensures store.sessions.Keys == old(store.sessions.Keys) + dialled
    {
      dialled := {};
      var todo := missing.Keys;
      ghost var before := store.sessions.Keys;
      while todo != {}
        invariant todo <= missing.Keys && Dialable(lines)
        invariant dialled == Answering(missing, todo, Answers(lines))
        invariant store.sessions.Keys == before + dialled
        decreases |todo|
      {
        var i :| i in todo;
        AnsweringMore(missing, todo, Answers(lines), i);
        dialled := DialOne(missing[i], lines, wall, now, before, dialled);
        todo := todo - {i};
      }
    }

    /** One `connect_peer`; a failed OPEN leaves no session. */
    method DialOne(
        address: string, lines: map<string, Line>, wall: int, now: real, ghost before: set<NodeId>,
        dialled: set<NodeId>)
      returns (more: set<NodeId>)
      requires Dialable(lines) && store.sessions.Keys == before + dialled
      modifies store, Remotes(lines)
      ensures Dialable(lines) && store.sessions.Keys == before + more
      ensures more == dialled + if address in Answers(lines) then {Answers(lines)[address]} else {}
    {
      more := dialled;
      if address in lines {
        var open := ConnectOne(lines[address], wall, now);
        if open {
          more := more + {lines[address].remote.id};
        }
      }
    }

    method ConnectOne(line: Line, wall: int, now: real) returns (open: bool)
      requires line.remote != store && line.remote.sha == store.sha && store.cfg.buckets > 0
      requires line.remote.cfg.buckets > 0
      requires OverlayOk(store.Abs()) && ClusterStore.CleanNode(store.Abs())
      requires OverlayOk(line.remote.Abs()) && ClusterStore.CleanNode(line.remote.Abs())
      modifies store, line.remote
      ensures OverlayOk(store.Abs()) && ClusterStore.CleanNode(store.Abs())
      ensures OverlayOk(line.remote.Abs()) && ClusterStore.CleanNode(line.remote.Abs())
      ensures open == (line.reach > 0)
      ensures store.sessions.Keys == old(store.sessions.Keys) + if open then {line.remote.id} else {}
    {
      ghost var l, r;
      var ok;
      ok, l, r := store.ConnectPeer(line.remote, {}, wall, line.wall, now, line.now, line.reach);
      open := line.reach > 0;
    }
  }

  /** Who is behind an address: the store, how many calls to it get through, and its clocks. */
  datatype Line = Line(remote: ClusterStore.ClusterStore, reach: nat, wall: int, now: real)

  function Remotes(lines: map<string, Line>): set<ClusterStore.ClusterStore> {
    set a | a in lines :: lines[a].remote
  }

  /** The addresses at which somebody accepts an OPEN, and who. */
  function Answers(lines: map<string, Line>): map<string, NodeId> {
    map a | a in lines && lines[a].reach > 0 :: lines[a].remote.id
  }

  lemma OustedByMore(me: NodeId, r: Roster, front: seq<Member>, last: Member)
    ensures OustedBy(me, r, front + [last]) == (OustedBy(me, r, front) || Ousts(me, r, last))
  {
    var all := front + [last];
    if i :| 0 <= i < |front| && Ousts(me, r, front[i]) { assert Ousts(me, r, all[i]); }
    if Ousts(me, r, last) { assert Ousts(me, r, all[|front|]); }
  }

  lemma MembersStayListed(me: NodeId, r: Roster, recs: seq<Member>)
    requires RosterOk(r)
    ensures forall i | i in r :: i in MergeList(me, r, recs)
  {
    forall i | i in r ensures i in MergeList(me, r, recs) { MergeKeepsNewest(me, r, recs, i); }
  }

  /** A record that is stored makes the roster differ from the one the batch started with. */
  lemma MergeMoves(me: NodeId, r: Roster, front: seq<Member>, last: Member)
    requires RosterOk(r) && last.id != me && Newer(last.version, VersionIn(MergeList(me, r, front), last.id))
    ensures MergeList(me, r, front)[last.id := last] != r
  {
    MergeKeepsNewest(me, r, front, last.id);
    var a := MergeList(me, r, front);
    if last.id in r {
      VersionOrder(last.version, a[last.id].version, r[last.id].version);
      VersionOrder(last.version, r[last.id].version, last.version);
    }
  }

  function LiveMembers(me: NodeId, r: Roster, cluster: string): set<NodeId> {
    set i | i in r && i != me && r[i].cluster == Some(cluster) && !r[i].removed
  }

  function Answering(missing: map<NodeId, string>, skip: set<NodeId>, answers: map<string, NodeId>): set<NodeId> {
    set i | i in missing && i !in skip && missing[i] in answers :: answers[missing[i]]
  }

  lemma AnsweringMore(missing: map<NodeId, string>, todo: set<NodeId>, answers: map<string, NodeId>, i: NodeId)
    requires i in missing && i in todo
    ensures Answering(missing, todo - {i}, answers)
         == Answering(missing, todo, answers) + if missing[i] in answers then {answers[missing[i]]} else {}
  {
  }

  lemma AnsweringIsDialled(me: NodeId, r: Roster, known: set<NodeId>, answers: map<string, NodeId>)
    ensures Answering(DesiredPeers(me, r) - known, {}, answers) == Dialled(me, r, known, answers)
  {
    var missing := DesiredPeers(me, r) - known;
    forall x | x in Dialled(me, r, known, answers) ensures x in Answering(missing, {}, answers) {
      var i :| i in r && Desired(me, r, i) && i !in known && r[i].address in answers && x == answers[r[i].address];
      assert i in missing && missing[i] == r[i].address;
    }
    forall x | x in Answering(missing, {}, answers) ensures x in Dialled(me, r, known, answers) {
      var i :| i in missing && missing[i] in answers && x == answers[missing[i]];
      assert i in r && Desired(me, r, i);
    }
  }

  /** Evicting after the clock moved on. */
  lemma EvictLater(cfg: Config, n: Node, m: Node, gone: set<NodeId>, p: NodeId, clock: int, now: real)
    requires m == Evict(cfg, n.(clock := m.clock), gone, now)
    ensures Evict(cfg, m.(clock := clock), {p}, now) == Evict(cfg, n.(clock := clock), gone + {p}, now)
  {
    ClusterStore.EvictTwice(cfg, n.(clock := clock), gone, {p}, now);
  }

  lemma NextTarget(me: NodeId, r: Roster, clock: int, ts: seq<Target>, k: nat)
    requires k < |ts|
    ensures TargetIds(ts[..k + 1]) == TargetIds(ts[..k]) + if ts[k].id == "" then {} else {ts[k].id}
    ensures var (q, c) := RemoveAll(me, r, clock, ts[..k]);
            var tomb := RemoveTomb(me, q, ts[k].id, ts[k].address, c, ts[k].wall);
            && RemoveAll(me, r, clock, ts[..k + 1])
               == (if ts[k].id == "" then (q, c) else (q[ts[k].id := tomb], tomb.version.ms))
            && RemovalTombs(me, r, clock, ts[..k + 1])
               == RemovalTombs(me, r, clock, ts[..k]) + (if ts[k].id == "" then [] else [tomb])
  {
    assert ts[..k + 1] == ts[..k] + [ts[k]] && ts[..k + 1][..k] == ts[..k];
  }

  lemma CountCollected(cfg: Config, r: Roster, wall: int)
    ensures |Collected(cfg, r, wall)| == |r| - |set i | i in r && Forgettable(cfg, r[i], wall)|
  {
    var gone := set i | i in r && Forgettable(cfg, r[i], wall);
    assert Collected(cfg, r, wall).Keys == r.Keys - gone;
    assert |r.Keys| == |r.Keys - gone| + |gone|;
  }
}
