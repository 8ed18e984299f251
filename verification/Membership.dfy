/** The membership plane: the roster every node keeps of who belongs to which cluster, merged
    last-writer-wins, and what it implies for whom to hold a session with. */
module Membership {
  import opened Envelope
  import opened Node

  /** One membership record: `(updated_at_ms, node_id)` versions, a tombstone when removed. */
  datatype Member = Member(id: NodeId, cluster: Option<string>, address: string, version: Version, removed: bool)

  type Roster = map<NodeId, Member>

  predicate RosterOk(r: Roster) {
    forall i | i in r :: r[i].id == i
  }

  /** The cluster a node is in, by its own record. */
  function ClusterOf(me: NodeId, r: Roster): Option<string> {
    if me in r then r[me].cluster else None
  }

  function VersionIn(r: Roster, i: NodeId): Option<Version> {
    if i in r then Some(r[i].version) else None
  }

  // ---- merging ----

  /** Our own record is authoritative; any other record wins when it is newer. */
  function MergeOne(me: NodeId, r: Roster, rec: Member): Roster {
    if rec.id != me && Newer(rec.version, VersionIn(r, rec.id)) then r[rec.id := rec] else r
  }

  function MergeList(me: NodeId, r: Roster, recs: seq<Member>): Roster
    decreases |recs|
  {
    if recs == [] then r else MergeOne(me, MergeList(me, r, recs[..|recs| - 1]), recs[|recs| - 1])
  }

  /** A newer removal of ourselves: we were evicted. */
  predicate Ousts(me: NodeId, r: Roster, rec: Member) {
    rec.id == me && rec.removed && Newer(rec.version, VersionIn(r, me))
  }

  predicate OustedBy(me: NodeId, r: Roster, recs: seq<Member>) {
    exists i :: 0 <= i < |recs| && Ousts(me, r, recs[i])
  }

  /** `merge`: an evicted node becomes standalone and forgets the roster. */
  function Merge(me: NodeId, r: Roster, recs: seq<Member>): Roster {
    if OustedBy(me, r, recs) then map[] else MergeList(me, r, recs)
  }

  /** What merging `recs` into `r` has to leave for node `i`: the record we have, or a strictly
      newer one, and in any case one that nothing offered beats. */
  predicate Newest(r: Roster, recs: seq<Member>, i: NodeId, rec: Member) {
    && rec.id == i
    && ((i in r && rec == r[i]) || rec in recs)
    && (i in r ==> rec == r[i] || After(rec.version, r[i].version))
    && (forall x | x in recs && x.id == i :: !After(x.version, rec.version))
  }

  /** Merging leaves our own record alone and for every other node the newest record offered. */
  lemma {:induction false} MergeKeepsNewest(me: NodeId, r: Roster, recs: seq<Member>, i: NodeId)
    requires RosterOk(r)
    ensures var m := MergeList(me, r, recs);
            && RosterOk(m)
            && (me in m <==> me in r) && (me in r ==> m[me] == r[me])
            && (i != me ==> (i in m <==> i in r || exists x :: x in recs && x.id == i))
            && (i != me && i in m ==> Newest(r, recs, i, m[i]))
    decreases |recs|
  {
    if recs != [] {
      var front, last := recs[..|recs| - 1], recs[|recs| - 1];
      MergeKeepsNewest(me, r, front, i);
      assert recs == front + [last];
      MergeStep(me, r, front, last, i);
    } else if i in r {
      VersionOrder(r[i].version, r[i].version, r[i].version);
    }
  }

  lemma MergeStep(me: NodeId, r: Roster, front: seq<Member>, last: Member, i: NodeId)
    requires i != me && i in MergeList(me, r, front) ==> Newest(r, front, i, MergeList(me, r, front)[i])
    requires i != me ==> (i in MergeList(me, r, front) <==> i in r || exists x :: x in front && x.id == i)
    ensures var m := MergeOne(me, MergeList(me, r, front), last);
            i != me && i in m ==> Newest(r, front + [last], i, m[i])
  {
    var a := MergeList(me, r, front);
    var m := MergeOne(me, a, last);
    if i != me && i in m && last.id == i {
      VersionOrder(last.version, last.version, last.version);
      if i in a {
        VersionOrder(last.version, a[i].version, last.version);
        forall x | x in front && x.id == i ensures !After(x.version, m[i].version) {
          VersionOrder(x.version, last.version, a[i].version);
          VersionOrder(last.version, a[i].version, x.version);
        }
        if i in r {
          VersionOrder(r[i].version, last.version, a[i].version);
          VersionOrder(last.version, a[i].version, r[i].version);
        }
      }
    }
  }

  /** What replicas agree on: the address is a local hint and may differ at equal versions. */
  datatype Standing = Standing(version: Version, cluster: Option<string>, removed: bool)

  function StandingOf(m: Member): Standing {
    Standing(m.version, m.cluster, m.removed)
  }

  /** A version determines the standing of a node. */
  predicate Consistent(recs: set<Member>) {
    forall a, b | a in recs && b in recs && a.id == b.id && a.version == b.version :: StandingOf(a) == StandingOf(b)
  }

  function RecordSet(recs: seq<Member>): set<Member> {
    set x | x in recs
  }

  /** Merging is insensitive to order and repetition: the same nodes are known, each at the same
      version, in the same cluster and with the same removed flag, and the decision that we were
      evicted is the same. */
  lemma MergeOrderBlind(me: NodeId, r: Roster, a: seq<Member>, b: seq<Member>)
    requires RosterOk(r) && RecordSet(a) == RecordSet(b) && Consistent(r.Values + RecordSet(a))
    ensures OustedBy(me, r, a) == OustedBy(me, r, b)
    ensures var ra, rb := Merge(me, r, a), Merge(me, r, b);
            ra.Keys == rb.Keys && forall i | i in ra :: StandingOf(ra[i]) == StandingOf(rb[i])
  {
    assert forall x :: x in a <==> x in RecordSet(b);
    var ra, rb := MergeList(me, r, a), MergeList(me, r, b);
    forall i
      ensures i in ra <==> i in rb
      ensures i in ra && i in rb ==> StandingOf(ra[i]) == StandingOf(rb[i])
    {
      MergeKeepsNewest(me, r, a, i);
      MergeKeepsNewest(me, r, b, i);
      if i != me && i in ra && i in rb {
        VersionOrder(ra[i].version, rb[i].version, ra[i].version);
        assert ra[i] in r.Values + RecordSet(a) && rb[i] in r.Values + RecordSet(a);
      }
    }
    OustedIsOrderBlind(me, r, a, b);
    OustedIsOrderBlind(me, r, b, a);
  }

  lemma OustedIsOrderBlind(me: NodeId, r: Roster, a: seq<Member>, b: seq<Member>)
    requires forall x | x in a :: x in b
    ensures OustedBy(me, r, a) ==> OustedBy(me, r, b)
  {
    if i :| 0 <= i < |a| && Ousts(me, r, a[i]) {
      assert a[i] in b;
      var j :| 0 <= j < |b| && b[j] == a[i];
      assert Ousts(me, r, b[j]);
    }
  }

  /** The address is not covered: two records of one version merged in either order. */
  lemma AddressDependsOnOrder(me: NodeId, x: Member, y: Member)
    requires x.id == y.id != me && StandingOf(x) == StandingOf(y) && x.address != y.address
    ensures Merge(me, map[], [x, y])[x.id].address == x.address
    ensures Merge(me, map[], [y, x])[x.id].address == y.address
  {
    VersionOrder(x.version, x.version, x.version);
    assert [x, y][..1] == [x] && [y, x][..1] == [y] && [x][..0] == [] && [y][..0] == [];
    assert !OustedBy(me, map[], [x, y]) && !OustedBy(me, map[], [y, x]);
    assert MergeList(me, map[], [x]) == map[x.id := x] && MergeList(me, map[], [y]) == map[y.id := y];
  }

  // ---- being evicted ----

  /** The batch holds a removal of ourselves that is newer than our own record. */
  predicate HoldsOurRemoval(me: NodeId, r: Roster, recs: seq<Member>) {
    exists rec :: rec in recs && rec.id == me && rec.removed && (me in r ==> After(rec.version, r[me].version))
  }

  lemma OustedIsRemoval(me: NodeId, r: Roster, recs: seq<Member>)
    ensures OustedBy(me, r, recs) <==> HoldsOurRemoval(me, r, recs)
  {
    if rec :| rec in recs && rec.id == me && rec.removed && (me in r ==> After(rec.version, r[me].version)) {
      var i :| 0 <= i < |recs| && recs[i] == rec;
      assert Ousts(me, r, recs[i]);
    }
    if i :| 0 <= i < |recs| && Ousts(me, r, recs[i]) { assert recs[i] in recs; }
  }

  /** What every merge leaves, in both cases: nothing at all when we were evicted; otherwise our own record
      as it was, and the newest record offered of everybody else. */
  ghost predicate MergeLeaves(me: NodeId, r: Roster, recs: seq<Member>, m: Roster) {
    if HoldsOurRemoval(me, r, recs) then m == map[]
    else
      && Get(m, me) == Get(r, me)
      && (forall i | i != me :: i in m <==> i in r || exists x :: x in recs && x.id == i)
      && (forall i | i != me && i in m :: Newest(r, recs, i, m[i]))
  }

  lemma MergeMeans(me: NodeId, r: Roster, recs: seq<Member>)
    requires RosterOk(r)
    ensures MergeLeaves(me, r, recs, Merge(me, r, recs))
  {
    OustedIsRemoval(me, r, recs);
    forall i
      ensures !OustedBy(me, r, recs) ==> Get(Merge(me, r, recs), me) == Get(r, me)
      ensures !OustedBy(me, r, recs) && i != me ==>
                (i in Merge(me, r, recs) <==> i in r || exists x :: x in recs && x.id == i)
      ensures !OustedBy(me, r, recs) && i != me && i in Merge(me, r, recs) ==> Newest(r, recs, i, Merge(me, r, recs)[i])
    {
      MergeKeepsNewest(me, r, recs, i);
    }
  }

  // ---- delta synchronisation ----

  /** Ids whose version at the peer beats ours. */
  function Wanted(r: Roster, theirs: map<NodeId, Version>): set<NodeId> {
    set i | i in theirs && Newer(theirs[i], VersionIn(r, i))
  }

  function Versions(r: Roster): map<NodeId, Version> {
    map i | i in r :: r[i].version
  }

  /** `recs` lists exactly the records of `s` for the ids `ids`, in any order. */
  ghost predicate ListsFor(recs: seq<Member>, s: Roster, ids: set<NodeId>) {
    && (forall k | 0 <= k < |recs| :: recs[k].id in s && recs[k].id in ids && s[recs[k].id] == recs[k])
    && (forall j, k | 0 <= j < k < |recs| :: recs[j].id != recs[k].id)
    && (forall i | i in s && i in ids :: s[i] in recs)
  }

  /** Whole-roster merge, entry by entry. */
  function MergeMap(me: NodeId, r: Roster, s: Roster): Roster {
    map i | i in r.Keys + s.Keys && (i in r || i != me) ::
      if i in s && i != me && Newer(s[i].version, VersionIn(r, i)) then s[i] else r[i]
  }

  predicate OustedByMap(me: NodeId, r: Roster, s: Roster) {
    me in s && Ousts(me, r, s[me])
  }

  lemma ListMergesEntry(me: NodeId, r: Roster, recs: seq<Member>, s: Roster, ids: set<NodeId>, i: NodeId)
    requires RosterOk(r) && RosterOk(s) && ListsFor(recs, s, ids)
    requires i in s && i !in ids ==> !Newer(s[i].version, VersionIn(r, i))
    ensures Get(MergeList(me, r, recs), i) == Get(MergeMap(me, r, s), i)
  {
    MergeKeepsNewest(me, r, recs, i);
    if i in s && i in r { VersionOrder(s[i].version, r[i].version, s[i].version); }
    assert forall x | x in recs && x.id == i :: i in s && x == s[i];
  }

  lemma ListMergesMap(me: NodeId, r: Roster, recs: seq<Member>, s: Roster, ids: set<NodeId>)
    requires RosterOk(r) && RosterOk(s) && ListsFor(recs, s, ids)
    requires forall i | i in s && i !in ids :: !Newer(s[i].version, VersionIn(r, i))
    ensures MergeList(me, r, recs) == MergeMap(me, r, s)
    ensures OustedBy(me, r, recs) == OustedByMap(me, r, s)
  {
    forall i ensures Get(MergeList(me, r, recs), i) == Get(MergeMap(me, r, s), i) {
      ListMergesEntry(me, r, recs, s, ids, i);
    }
    SameEntries(MergeList(me, r, recs), MergeMap(me, r, s));
    if OustedByMap(me, r, s) {
      assert s[me] in recs;
      var k :| 0 <= k < |recs| && recs[k] == s[me];
      assert Ousts(me, r, recs[k]);
    }
  }

  lemma SameEntries(a: Roster, b: Roster)
    requires forall i :: Get(a, i) == Get(b, i)
    ensures a == b
  {
    forall i
      ensures i in a <==> i in b
      ensures i in a && i in b ==> a[i] == b[i]
    {
      assert Get(a, i) == Get(b, i);
    }
  }

  /** Pulling only the newer ids leaves the same roster, and the same decision that we were
      evicted, as merging everything the peer has. */
  lemma DeltaIsFull(me: NodeId, r: Roster, s: Roster, delta: seq<Member>, all: seq<Member>)
    requires RosterOk(r) && RosterOk(s)
    requires ListsFor(delta, s, Wanted(r, Versions(s))) && ListsFor(all, s, s.Keys)
    ensures Merge(me, r, delta) == Merge(me, r, all)
    ensures OustedBy(me, r, delta) == OustedBy(me, r, all)
  {
    ListMergesMap(me, r, delta, s, Wanted(r, Versions(s)));
    ListMergesMap(me, r, all, s, s.Keys);
  }

  // ---- whom to connect to ----

  /** A live member of our cluster with a known address, other than ourselves. */
  predicate Desired(me: NodeId, r: Roster, i: NodeId) {
    && me in r && r[me].cluster.Some?
    && i in r && i != me && r[i].cluster == r[me].cluster && !r[i].removed && r[i].address != ""
  }

  function DesiredPeers(me: NodeId, r: Roster): map<NodeId, string> {
    map i | i in r && Desired(me, r, i) :: r[i].address
  }

  predicate RemovedOrAbsent(me: NodeId, r: Roster, i: NodeId) {
    i !in r || r[i].removed || r[i].cluster != ClusterOf(me, r)
  }

  /** Sessions a pass opens: `answers` tells which node answers at an address, if any. */
  function Dialled(me: NodeId, r: Roster, sessions: set<NodeId>, answers: map<string, NodeId>): set<NodeId> {
    set i | i in r && Desired(me, r, i) && i !in sessions && r[i].address in answers :: answers[r[i].address]
  }

  /** Sessions a pass closes. */
  function Dropped(me: NodeId, r: Roster, sessions: set<NodeId>): set<NodeId> {
    set i | i in sessions && !Desired(me, r, i) && RemovedOrAbsent(me, r, i)
  }

  function Reconciled(me: NodeId, r: Roster, sessions: set<NodeId>, answers: map<string, NodeId>): set<NodeId> {
    if ClusterOf(me, r).None? then sessions
    else sessions + Dialled(me, r, sessions, answers) - Dropped(me, r, sessions)
  }

  /** Each address of a missing member is answered by that very member. */
  predicate Reachable(me: NodeId, r: Roster, sessions: set<NodeId>, answers: map<string, NodeId>) {
    forall i | i in r && Desired(me, r, i) && i !in sessions :: r[i].address in answers && answers[r[i].address] == i
  }

  /** A pass never drops a session with a wanted peer, whoever answers. */
  lemma WantedKept(me: NodeId, r: Roster, sessions: set<NodeId>, answers: map<string, NodeId>, i: NodeId)
    requires i in sessions && (Desired(me, r, i) || !RemovedOrAbsent(me, r, i))
    ensures i in Reconciled(me, r, sessions, answers)
  {
  }

  /** When every dial reaches the node it names, one pass is enough: every desired peer has a
      session, no removed or absent node does, and a second pass connects and drops nothing. */
  lemma OnePassIsEnough(
      me: NodeId, r: Roster, sessions: set<NodeId>, answers: map<string, NodeId>, later: map<string, NodeId>)
    requires ClusterOf(me, r).Some? && Reachable(me, r, sessions, answers)
    ensures var after := Reconciled(me, r, sessions, answers);
            && (forall i | Desired(me, r, i) :: i in after)
            && (forall i | i in after :: !RemovedOrAbsent(me, r, i))
            && Dialled(me, r, after, later) == {} && Dropped(me, r, after) == {}
            && Reconciled(me, r, after, later) == after
  {
    var after := Reconciled(me, r, sessions, answers);
    forall i | Desired(me, r, i) ensures i in after {
      if i !in sessions {
        assert answers[r[i].address] in Dialled(me, r, sessions, answers);
      }
    }
  }

  // ---- removing, leaving, forgetting ----

  function Floor(r: Roster, i: NodeId): int {
    if i in r then r[i].version.ms else 0
  }

  /** The tombstone for `i`: its version is `next_version_after` that of the record it replaces. */
  function Tomb(
      me: NodeId, r: Roster, i: NodeId, cluster: Option<string>, address: string, clock: int, wall: int): Member
  {
    Member(i, cluster, if i in r then r[i].address else address,
           Version(NextTsAfter(clock, wall, Floor(r, i)), me), true)
  }

  /** `set_remove` of one node puts the tombstone into our own cluster. */
  function RemoveTomb(me: NodeId, r: Roster, i: NodeId, address: string, clock: int, wall: int): Member {
    Tomb(me, r, i, ClusterOf(me, r), address, clock, wall)
  }

  /** A graceful leave keeps the cluster of the record it replaces. */
  function LeaveTomb(me: NodeId, r: Roster, i: NodeId, clock: int, wall: int): Member {
    Tomb(me, r, i, if i in r then r[i].cluster else ClusterOf(me, r), "", clock, wall)
  }

  /** Whoever minted the record, and whatever our clock shows, the tombstone out-versions it: every
      peer that has the record replaces it, and no peer that has the tombstone takes it back. */
  lemma TombOutVersions(
      me: NodeId, r: Roster, i: NodeId, cluster: Option<string>, address: string, clock: int, wall: int)
    requires i in r
    ensures var t := Tomb(me, r, i, cluster, address, clock, wall);
            && After(t.version, r[i].version)
            && (forall who, other: Roster | who != i && i in other && other[i] == r[i] ::
                  MergeOne(who, other, t)[i] == t)
            && (forall who, other: Roster | i in other && other[i] == t && r[i].id == i ::
                  MergeOne(who, other, r[i])[i] == t)
  {
    var t := Tomb(me, r, i, cluster, address, clock, wall);
    VersionOrder(t.version, r[i].version, t.version);
  }

  predicate Forgettable(cfg: Config, m: Member, wall: int) {
    m.removed && Expired(cfg, m.version.ms, wall)
  }

  function Collected(cfg: Config, r: Roster, wall: int): Roster {
    map i | i in r && !Forgettable(cfg, r[i], wall) :: r[i]
  }

  /** What is persisted: our cluster, our own version, and the records of our cluster. */
  datatype SavedRoster = SavedRoster(cluster: Option<string>, mine: Option<Version>, peers: Roster)

  function Persisted(me: NodeId, r: Roster): SavedRoster {
    SavedRoster(ClusterOf(me, r), VersionIn(r, me),
                map i | i in r && i != me && r[i].cluster == ClusterOf(me, r) :: r[i])
  }

  /** The roster a restarted node begins with; `minted` is used when no version was saved. */
  function Restored(cfg: Config, me: NodeId, address: string, saved: SavedRoster, minted: Version, wall: int): Roster {
    if saved.cluster.None? then map[]
    else
      var own := Member(me, saved.cluster, address, if saved.mine.Some? then saved.mine.value else minted, false);
      Collected(cfg, (saved.peers - {me})[me := own], wall)
  }

  /** A restart from what we persisted brings back our own record, every live member of our cluster and
      every removal still in its retention, just as they were, and nobody else. */
  lemma RestartRestores(cfg: Config, me: NodeId, address: string, r: Roster, minted: Version, wall: int, i: NodeId)
    requires ClusterOf(me, r).Some? && cfg.RetentionMs() >= 0
    ensures var q := Restored(cfg, me, address, Persisted(me, r), minted, wall);
            && me in q && q[me] == Member(me, r[me].cluster, address, r[me].version, false)
            && (i != me ==>
                  (i in q <==>
                    && i in r && r[i].cluster == r[me].cluster
                    && (r[i].removed ==> wall - r[i].version.ms <= cfg.RetentionMs())))
            && (i != me && i in q ==> q[i] == r[i])
            && (Desired(me, q, i) <==> Desired(me, r, i))
  {
  }

  // ---- several removals in one call ----

  /** One entry of a `set_remove` call; an empty id is an error entry. `wall` is the clock reading
      taken when its turn comes. */
  datatype Target = Target(id: NodeId, address: string, wall: int)

  function TargetIds(ts: seq<Target>): set<NodeId> {
    set t | t in ts && t.id != "" :: t.id
  }

  /** Roster and version clock after the entries, in order. */
  function RemoveAll(me: NodeId, r: Roster, clock: int, ts: seq<Target>): (Roster, int)
    decreases |ts|
  {
    if ts == [] then (r, clock)
    else
      var (q, c) := RemoveAll(me, r, clock, ts[..|ts| - 1]);
      var t := ts[|ts| - 1];
      if t.id == "" then (q, c)
      else
        var tomb := RemoveTomb(me, q, t.id, t.address, c, t.wall);
        (q[t.id := tomb], tomb.version.ms)
  }

  /** The tombstones it puts, in order. */
  function RemovalTombs(me: NodeId, r: Roster, clock: int, ts: seq<Target>): seq<Member>
    decreases |ts|
  {
    if ts == [] then []
    else
      var (q, c) := RemoveAll(me, r, clock, ts[..|ts| - 1]);
      var t := ts[|ts| - 1];
      RemovalTombs(me, r, clock, ts[..|ts| - 1])
      + (if t.id == "" then [] else [RemoveTomb(me, q, t.id, t.address, c, t.wall)])
  }

  /** Whom a change is pushed to: the live members of our cluster with a known address. */
  function PushTargets(me: NodeId, r: Roster): map<NodeId, string> {
    map i | i in r && i != me && !r[i].removed && r[i].cluster == ClusterOf(me, r) && r[i].address != "" :: r[i].address
  }

  /** Whoever we want a session with is told of a change, at the address we have of it, and nobody else. */
  lemma PushReachesTheDesired(me: NodeId, r: Roster)
    requires ClusterOf(me, r).Some?
    ensures forall i :: i in PushTargets(me, r) <==> Desired(me, r, i)
    ensures forall i | i in PushTargets(me, r) :: PushTargets(me, r)[i] == r[i].address != ""
    ensures PushTargets(me, r) == DesiredPeers(me, r)
  {
  }

  /** A tombstone that is pushed takes hold wherever it arrives: a node that holds nothing newer of the
      removed one no longer wants a session with it, and says so to whomever it syncs with. */
  lemma PushedTombTakesHold(who: NodeId, other: Roster, t: Member)
    requires RosterOk(other) && t.removed && t.id != who
    requires t.id in other ==>
               !After(other[t.id].version, t.version) && (other[t.id].version == t.version ==> other[t.id].removed)
    ensures !Desired(who, MergeList(who, other, [t]), t.id)
    ensures t.id in MergeList(who, other, [t]) && MergeList(who, other, [t])[t.id].version == t.version
  {
    assert [t][..0] == [] && MergeList(who, other, []) == other;
    if t.id in other { VersionOrder(t.version, other[t.id].version, t.version); }
  }

  /** After the call every named node is a tombstone that out-versions the record it had, nobody
      else changed, and none of them is a peer we want. */
  lemma {:induction false} RemoveAllRemoves(me: NodeId, r: Roster, clock: int, ts: seq<Target>, i: NodeId)
    ensures var (q, c) := RemoveAll(me, r, clock, ts);
            && c >= clock
            && (i !in TargetIds(ts) ==> Get(q, i) == Get(r, i))
            && (i in TargetIds(ts) ==>
                  && i in q && q[i].id == i && q[i].removed && clock < q[i].version.ms <= c && q[i].version.node == me
                  && (i in r ==> After(q[i].version, r[i].version))
                  && !Desired(me, q, i))
    decreases |ts|
  {
    if ts != [] {
      var front, t := ts[..|ts| - 1], ts[|ts| - 1];
      assert ts == front + [t];
      RemoveAllRemoves(me, r, clock, front, i);
      assert TargetIds(ts) == TargetIds(front) + if t.id == "" then {} else {t.id};
      var q := RemoveAll(me, r, clock, front).0;
      if i == t.id && i in q && i in r {
        VersionOrder(Version(q[i].version.ms + 1, me), q[i].version, r[i].version);
      }
    }
  }

  /** The tombstones of a call are those it put: one for each entry that names a node, each a removal in our
      cluster by us; and the one in the roster is among them. */
  lemma {:induction false} TombsAreTheRemovals(me: NodeId, r: Roster, clock: int, ts: seq<Target>, i: NodeId)
    ensures var tombs, q := RemovalTombs(me, r, clock, ts), RemoveAll(me, r, clock, ts).0;
            && |tombs| == Named(ts)
            && (forall t | t in tombs :: t.removed && t.version.node == me && t.id in TargetIds(ts))
            && (i in TargetIds(ts) ==> i in q && q[i] in tombs)
    decreases |ts|
  {
    if ts != [] {
      var front, t := ts[..|ts| - 1], ts[|ts| - 1];
      assert ts == front + [t];
      TombsAreTheRemovals(me, r, clock, front, i);
      RemoveAllRemoves(me, r, clock, front, i);
      assert TargetIds(ts) == TargetIds(front) + if t.id == "" then {} else {t.id};
    }
  }

  /** How many entries name a node. */
  function Named(ts: seq<Target>): nat {
    if ts == [] then 0 else Named(ts[..|ts| - 1]) + if ts[|ts| - 1].id == "" then 0 else 1
  }

  // ---- removal dominates ----

  datatype Plane = Plane(roster: Roster, disk: SavedRoster, clock: int)

  datatype Step =
    | Merging(recs: seq<Member>)
    | Removing(node: NodeId, address: string, wall: int)
    | Leaving(node: NodeId, wall: int)
    | Collecting(wall: int)
    | Restarting(minted: Version, wall: int, clock: int)

  function PutRecord(me: NodeId, p: Plane, rec: Member): Plane {
    var r := p.roster[rec.id := rec];
    Plane(r, Persisted(me, r), rec.version.ms)
  }

  function NextPlane(cfg: Config, me: NodeId, address: string, p: Plane, s: Step): Plane {
    match s
    case Merging(recs) =>
      var r := Merge(me, p.roster, recs);
      if OustedBy(me, p.roster, recs) || r != p.roster then Plane(r, Persisted(me, r), p.clock) else p
    case Removing(node, addr, wall) => PutRecord(me, p, RemoveTomb(me, p.roster, node, addr, p.clock, wall))
    case Leaving(node, wall) => PutRecord(me, p, LeaveTomb(me, p.roster, node, p.clock, wall))
    case Collecting(wall) => p.(roster := Collected(cfg, p.roster, wall))
    case Restarting(minted, wall, clock) =>
      p.(roster := Restored(cfg, me, address, p.disk, minted, wall), clock := clock)
  }

  function Run(cfg: Config, me: NodeId, address: string, p: Plane, run: seq<Step>): Plane
    decreases |run|
  {
    if run == [] then p
    else NextPlane(cfg, me, address, Run(cfg, me, address, p, run[..|run| - 1]), run[|run| - 1])
  }

  /** A `set_remove` call as steps. */
  function Removals(ts: seq<Target>): seq<Step> {
    if ts == [] then []
    else
      var t := ts[|ts| - 1];
      Removals(ts[..|ts| - 1]) + if t.id == "" then [] else [Removing(t.id, t.address, t.wall)]
  }

  /** Removing a list is removing its entries one after the other. */
  lemma {:induction false} RemoveAllIsRun(cfg: Config, me: NodeId, address: string, p: Plane, ts: seq<Target>)
    ensures var end := Run(cfg, me, address, p, Removals(ts));
            && (end.roster, end.clock) == RemoveAll(me, p.roster, p.clock, ts)
            && end.disk == if Removals(ts) == [] then p.disk else Persisted(me, end.roster)
  {
    if ts != [] {
      var front, t := ts[..|ts| - 1], ts[|ts| - 1];
      RemoveAllIsRun(cfg, me, address, p, front);
      if t.id == "" {
        assert Removals(ts) == Removals(front);
      } else {
        RunMore(cfg, me, address, p, Removals(front), Removing(t.id, t.address, t.wall));
      }
    }
  }

  lemma RunMore(cfg: Config, me: NodeId, address: string, p: Plane, run: seq<Step>, s: Step)
    ensures Run(cfg, me, address, p, run + [s]) == NextPlane(cfg, me, address, Run(cfg, me, address, p, run), s)
  {
    assert (run + [s])[..|run|] == run;
  }

  /** Records that arrive are no newer than the tombstone, or are themselves removals from the
      cluster we are in; collections happen before the tombstone is past its retention. */
  predicate Bounded(cfg: Config, cluster: Option<string>, i: NodeId, v: Version, s: Step) {
    match s
    case Merging(recs) =>
      forall x | x in recs && x.id == i :: !After(x.version, v) || (x.removed && x.cluster == cluster)
    case Collecting(wall) => !Expired(cfg, v.ms, wall)
    case Restarting(minted, wall, clock) => !Expired(cfg, v.ms, wall)
    case _ => true
  }

  predicate Buried(me: NodeId, r: Roster, i: NodeId, v: Version) {
    i in r && r[i].removed && r[i].id == i && !After(v, r[i].version) && r[i].cluster == ClusterOf(me, r)
  }

  predicate BuriedOnDisk(d: SavedRoster, i: NodeId, v: Version) {
    && i in d.peers && d.peers[i].removed && d.peers[i].id == i && !After(v, d.peers[i].version)
    && d.peers[i].cluster == d.cluster
  }

  /** Either we are in no cluster any more, or still in `cluster` with the removal of `i` at hand. */
  predicate Holds(me: NodeId, p: Plane, cluster: Option<string>, i: NodeId, v: Version) {
    && RosterOk(p.roster) && RosterOk(p.disk.peers) && me !in p.disk.peers
    && (ClusterOf(me, p.roster) != None ==> ClusterOf(me, p.roster) == cluster && Buried(me, p.roster, i, v))
    && (p.disk.cluster != None ==> p.disk.cluster == cluster && BuriedOnDisk(p.disk, i, v))
  }

  lemma PersistKeeps(me: NodeId, r: Roster, cluster: Option<string>, i: NodeId, v: Version, clock: int)
    requires RosterOk(r) && i != me
    requires ClusterOf(me, r) != None ==> ClusterOf(me, r) == cluster && Buried(me, r, i, v)
    ensures Holds(me, Plane(r, Persisted(me, r), clock), cluster, i, v)
  {
  }

  lemma MergeListBuried(me: NodeId, r: Roster, recs: seq<Member>, cluster: Option<string>, i: NodeId, v: Version)
    requires RosterOk(r) && i != me && Buried(me, r, i, v) && ClusterOf(me, r) == cluster
    requires forall x | x in recs && x.id == i :: !After(x.version, v) || (x.removed && x.cluster == cluster)
    ensures Buried(me, MergeList(me, r, recs), i, v) && ClusterOf(me, MergeList(me, r, recs)) == cluster
  {
    MergeKeepsNewest(me, r, recs, i);
    var m := MergeList(me, r, recs)[i];
    if m != r[i] {
      VersionOrder(m.version, r[i].version, v);
      VersionOrder(v, m.version, r[i].version);
      VersionOrder(r[i].version, v, m.version);
    }
  }

  lemma TombBuries(
      me: NodeId, r: Roster, clock: int, wall: int, node: NodeId, t: Member, cluster: Option<string>, i: NodeId,
      v: Version)
    requires RosterOk(r) && i != me && t.id == node && t.removed && (node in r ==> After(t.version, r[node].version))
    requires ClusterOf(me, r) != None ==> ClusterOf(me, r) == cluster && Buried(me, r, i, v)
    requires t.cluster == (if node in r then r[node].cluster else ClusterOf(me, r)) || t.cluster == ClusterOf(me, r)
    ensures RosterOk(r[node := t])
    ensures ClusterOf(me, r[node := t]) != None ==>
              ClusterOf(me, r[node := t]) == cluster && Buried(me, r[node := t], i, v)
  {
    if node == i && i in r {
      VersionOrder(t.version, r[i].version, v);
      VersionOrder(v, t.version, r[i].version);
    }
  }

  lemma StepHolds(
      cfg: Config, me: NodeId, address: string, p: Plane, s: Step, cluster: Option<string>, i: NodeId, v: Version)
    requires i != me && Holds(me, p, cluster, i, v) && Bounded(cfg, cluster, i, v, s)
    ensures Holds(me, NextPlane(cfg, me, address, p, s), cluster, i, v)
  {
    match s
    case Merging(recs) =>
      MergeKeepsNewest(me, p.roster, recs, i);
      if ClusterOf(me, p.roster) != None { MergeListBuried(me, p.roster, recs, cluster, i, v); }
      PersistKeeps(me, Merge(me, p.roster, recs), cluster, i, v, p.clock);
    case Removing(node, addr, wall) =>
      var t := RemoveTomb(me, p.roster, node, addr, p.clock, wall);
      TombBuries(me, p.roster, p.clock, wall, node, t, cluster, i, v);
      PersistKeeps(me, p.roster[node := t], cluster, i, v, t.version.ms);
    case Leaving(node, wall) =>
      var t := LeaveTomb(me, p.roster, node, p.clock, wall);
      TombBuries(me, p.roster, p.clock, wall, node, t, cluster, i, v);
      PersistKeeps(me, p.roster[node := t], cluster, i, v, t.version.ms);
    case Collecting(wall) =>
      CollectKeeps(cfg, me, p.roster, cluster, i, v, wall);
    case Restarting(minted, wall, clock) =>
      RestartKeeps(cfg, me, address, p.disk, cluster, i, v, minted, wall);
  }

  lemma CollectKeeps(cfg: Config, me: NodeId, r: Roster, cluster: Option<string>, i: NodeId, v: Version, wall: int)
    requires RosterOk(r) && i != me && !Expired(cfg, v.ms, wall)
    requires ClusterOf(me, r) != None ==> ClusterOf(me, r) == cluster && Buried(me, r, i, v)
    ensures var c := Collected(cfg, r, wall);
            RosterOk(c) && (ClusterOf(me, c) != None ==> ClusterOf(me, c) == cluster && Buried(me, c, i, v))
  {
  }

  lemma RestartKeeps(
      cfg: Config, me: NodeId, address: string, d: SavedRoster, cluster: Option<string>, i: NodeId, v: Version,
      minted: Version, wall: int)
    requires RosterOk(d.peers) && i != me && !Expired(cfg, v.ms, wall)
    requires d.cluster != None ==> d.cluster == cluster && BuriedOnDisk(d, i, v)
    ensures var r := Restored(cfg, me, address, d, minted, wall);
            RosterOk(r) && (ClusterOf(me, r) != None ==> ClusterOf(me, r) == cluster && Buried(me, r, i, v))
  {
    if d.cluster.Some? {
      var own := Member(me, d.cluster, address, if d.mine.Some? then d.mine.value else minted, false);
      var all := (d.peers - {me})[me := own];
      CollectKeeps(cfg, me, all, cluster, i, v, wall);
    }
  }

  lemma {:induction false} RunHolds(
      cfg: Config, me: NodeId, address: string, p: Plane, run: seq<Step>, cluster: Option<string>, i: NodeId,
      v: Version)
    requires i != me && Holds(me, p, cluster, i, v)
    requires forall s | s in run :: Bounded(cfg, cluster, i, v, s)
    ensures Holds(me, Run(cfg, me, address, p, run), cluster, i, v)
    decreases |run|
  {
    if run != [] {
      var front, last := run[..|run| - 1], run[|run| - 1];
      assert run == front + [last];
      RunHolds(cfg, me, address, p, front, cluster, i, v);
      StepHolds(cfg, me, address, Run(cfg, me, address, p, front), last, cluster, i, v);
    }
  }

  /** Removal dominates: after `set_remove` no run of merges of records no newer than the tombstone,
      further removals, leaves, restarts and collections within the retention window puts the node
      back among the peers we want a session with. */
  lemma RemovalDominates(
      cfg: Config, me: NodeId, address: string, p: Plane, i: NodeId, addr: string, wall: int, run: seq<Step>)
    requires RosterOk(p.roster) && i != me
    requires var v := RemoveTomb(me, p.roster, i, addr, p.clock, wall).version;
             forall s | s in run :: Bounded(cfg, ClusterOf(me, p.roster), i, v, s)
    ensures !Desired(me, Run(cfg, me, address, NextPlane(cfg, me, address, p, Removing(i, addr, wall)), run).roster, i)
  {
    var t := RemoveTomb(me, p.roster, i, addr, p.clock, wall);
    var p1 := NextPlane(cfg, me, address, p, Removing(i, addr, wall));
    VersionOrder(t.version, t.version, t.version);
    assert ClusterOf(me, p1.roster) == ClusterOf(me, p.roster);
    PersistKeeps(me, p1.roster, ClusterOf(me, p.roster), i, t.version, p1.clock);
    RunHolds(cfg, me, address, p1, run, ClusterOf(me, p.roster), i, t.version);
  }

  /** We are in no cluster, and would be in none after a restart. */
  predicate Outside(me: NodeId, p: Plane) {
    ClusterOf(me, p.roster).None? && p.disk.cluster.None?
  }

  lemma StaysOutside(cfg: Config, me: NodeId, address: string, p: Plane, s: Step)
    requires RosterOk(p.roster) && Outside(me, p)
    ensures RosterOk(NextPlane(cfg, me, address, p, s).roster) && Outside(me, NextPlane(cfg, me, address, p, s))
  {
    if s.Merging? { MergeKeepsNewest(me, p.roster, s.recs, me); }
  }

  lemma {:induction false} RunStaysOutside(cfg: Config, me: NodeId, address: string, p: Plane, run: seq<Step>)
    requires RosterOk(p.roster) && Outside(me, p)
    ensures RosterOk(Run(cfg, me, address, p, run).roster) && Outside(me, Run(cfg, me, address, p, run))
    decreases |run|
  {
    if run != [] {
      RunStaysOutside(cfg, me, address, p, run[..|run| - 1]);
      StaysOutside(cfg, me, address, Run(cfg, me, address, p, run[..|run| - 1]), run[|run| - 1]);
    }
  }

  /** Once a batch has evicted us, nobody is a desired peer in any run that follows, whatever is merged,
      removed, collected and restarted: only joining a cluster again can change that. */
  lemma EvictedStaysOutside(
      cfg: Config, me: NodeId, address: string, p: Plane, recs: seq<Member>, run: seq<Step>, i: NodeId)
    requires RosterOk(p.roster) && HoldsOurRemoval(me, p.roster, recs)
    ensures var p1 := NextPlane(cfg, me, address, p, Merging(recs));
            && p1.roster == map[] && p1.disk == SavedRoster(None, None, map[])
            && !Desired(me, Run(cfg, me, address, p1, run).roster, i)
  {
    OustedIsRemoval(me, p.roster, recs);
    RunStaysOutside(cfg, me, address, NextPlane(cfg, me, address, p, Merging(recs)), run);
  }

  /** Whose tombstone ends up in our own cluster: a leaver we had there, or knew nothing about; and when
      we are in no cluster, nobody is desired. */
  predicate LeavesOurs(me: NodeId, r: Roster, i: NodeId) {
    ClusterOf(me, r).None? || i !in r || r[i].cluster == ClusterOf(me, r)
  }

  /** The same for such a node that leaves gracefully. */
  lemma LeavingDominates(cfg: Config, me: NodeId, address: string, p: Plane, i: NodeId, wall: int, run: seq<Step>)
    requires RosterOk(p.roster) && i != me && LeavesOurs(me, p.roster, i)
    requires var v := LeaveTomb(me, p.roster, i, p.clock, wall).version;
             forall s | s in run :: Bounded(cfg, ClusterOf(me, p.roster), i, v, s)
    ensures !Desired(me, Run(cfg, me, address, NextPlane(cfg, me, address, p, Leaving(i, wall)), run).roster, i)
  {
    var t := LeaveTomb(me, p.roster, i, p.clock, wall);
    var p1 := NextPlane(cfg, me, address, p, Leaving(i, wall));
    VersionOrder(t.version, t.version, t.version);
    assert ClusterOf(me, p1.roster) == ClusterOf(me, p.roster);
    PersistKeeps(me, p1.roster, ClusterOf(me, p.roster), i, t.version, p1.clock);
    RunHolds(cfg, me, address, p1, run, ClusterOf(me, p.roster), i, t.version);
  }

  /** Either we are in no cluster any more, or a removal of `i`, from whatever cluster, is at hand. */
  predicate GoneAtHand(me: NodeId, r: Roster, i: NodeId, v: Version) {
    RosterOk(r) && (ClusterOf(me, r).Some? ==> i in r && r[i].removed && !After(v, r[i].version))
  }

  lemma MergeKeepsGone(me: NodeId, r: Roster, recs: seq<Member>, cluster: Option<string>, i: NodeId, v: Version)
    requires i != me && GoneAtHand(me, r, i, v)
    requires forall x | x in recs && x.id == i :: !After(x.version, v) || (x.removed && x.cluster == cluster)
    ensures GoneAtHand(me, Merge(me, r, recs), i, v)
  {
    MergeKeepsNewest(me, r, recs, i);
    if ClusterOf(me, r).Some? && MergeList(me, r, recs)[i] != r[i] {
      var m := MergeList(me, r, recs)[i];
      VersionOrder(m.version, r[i].version, v);
      VersionOrder(v, m.version, r[i].version);
      VersionOrder(r[i].version, v, m.version);
    }
  }

  lemma TombKeepsGone(me: NodeId, r: Roster, t: Member, i: NodeId, v: Version)
    requires i != me && GoneAtHand(me, r, i, v) && t.removed && (t.id in r ==> After(t.version, r[t.id].version))
    requires t.id == me ==> t.cluster == ClusterOf(me, r)
    ensures GoneAtHand(me, r[t.id := t], i, v)
  {
    if t.id == i && i in r {
      VersionOrder(t.version, r[i].version, v);
      VersionOrder(v, t.version, r[i].version);
    }
  }

  lemma StepKeepsGone(
      cfg: Config, me: NodeId, address: string, p: Plane, s: Step, cluster: Option<string>, i: NodeId, v: Version)
    requires i != me && GoneAtHand(me, p.roster, i, v) && Bounded(cfg, cluster, i, v, s) && !s.Restarting?
    ensures GoneAtHand(me, NextPlane(cfg, me, address, p, s).roster, i, v)
  {
    match s
    case Merging(recs) => MergeKeepsGone(me, p.roster, recs, cluster, i, v);
    case Removing(node, addr, wall) =>
      TombKeepsGone(me, p.roster, RemoveTomb(me, p.roster, node, addr, p.clock, wall), i, v);
    case Leaving(node, wall) => TombKeepsGone(me, p.roster, LeaveTomb(me, p.roster, node, p.clock, wall), i, v);
    case Collecting(wall) =>
  }

  lemma {:induction false} RunKeepsGone(
      cfg: Config, me: NodeId, address: string, p: Plane, run: seq<Step>, cluster: Option<string>, i: NodeId,
      v: Version)
    requires i != me && GoneAtHand(me, p.roster, i, v)
    requires forall s | s in run :: Bounded(cfg, cluster, i, v, s) && !s.Restarting?
    ensures GoneAtHand(me, Run(cfg, me, address, p, run).roster, i, v)
    decreases |run|
  {
    if run != [] {
      var front, last := run[..|run| - 1], run[|run| - 1];
      assert run == front + [last];
      RunKeepsGone(cfg, me, address, p, front, cluster, i, v);
      StepKeepsGone(cfg, me, address, Run(cfg, me, address, p, front), last, cluster, i, v);
    }
  }

  /** A leaver we had recorded in another cluster stays gone as long as we do not restart, */
  lemma LeavingDominatesUntilRestart(
      cfg: Config, me: NodeId, address: string, p: Plane, i: NodeId, wall: int, run: seq<Step>)
    requires RosterOk(p.roster) && i != me
    requires var v := LeaveTomb(me, p.roster, i, p.clock, wall).version;
             forall s | s in run :: Bounded(cfg, ClusterOf(me, p.roster), i, v, s) && !s.Restarting?
    ensures !Desired(me, Run(cfg, me, address, NextPlane(cfg, me, address, p, Leaving(i, wall)), run).roster, i)
  {
    var t := LeaveTomb(me, p.roster, i, p.clock, wall);
    VersionOrder(t.version, t.version, t.version);
    RunKeepsGone(cfg, me, address, NextPlane(cfg, me, address, p, Leaving(i, wall)), run, ClusterOf(me, p.roster), i,
        t.version);
  }

  /** A restart, and a record of the leaver in our cluster no newer than its tombstone. */
  function StaleReturn(me: NodeId, p: Plane, i: NodeId, wall: int): seq<Step> {
    var v := LeaveTomb(me, p.roster, i, p.clock, wall).version;
    [Restarting(v, v.ms, v.ms), Merging([Member(i, ClusterOf(me, p.roster), "x", v, false)])]
  }

  /** but its tombstone is not among the records that are saved, so that after a restart an old record
      of it is taken. */
  lemma RestartForgetsLeaver(cfg: Config, me: NodeId, address: string, p: Plane, i: NodeId, wall: int)
    requires RosterOk(p.roster) && i != me && !LeavesOurs(me, p.roster, i) && cfg.RetentionMs() >= 0
    ensures var v := LeaveTomb(me, p.roster, i, p.clock, wall).version;
            forall s | s in StaleReturn(me, p, i, wall) :: Bounded(cfg, ClusterOf(me, p.roster), i, v, s)
    ensures var p1 := NextPlane(cfg, me, address, p, Leaving(i, wall));
            Desired(me, Run(cfg, me, address, p1, StaleReturn(me, p, i, wall)).roster, i)
  {
    var p1 := NextPlane(cfg, me, address, p, Leaving(i, wall));
    var t := LeaveTomb(me, p.roster, i, p.clock, wall);
    var run := StaleReturn(me, p, i, wall);
    VersionOrder(t.version, t.version, t.version);
    var p2 := NextPlane(cfg, me, address, p1, run[0]);
    assert ClusterOf(me, p1.roster) == ClusterOf(me, p.roster) && i !in p1.disk.peers;
    assert i !in p2.roster && me in p2.roster && p2.roster[me].cluster == ClusterOf(me, p.roster);
    var rec := run[1].recs[0];
    assert [rec][..0] == [] && MergeList(me, p2.roster, [rec]) == p2.roster[i := rec];
    assert !OustedBy(me, p2.roster, [rec]);
    assert run[..1] == [run[0]] && [run[0]][..0] == [];
    assert Run(cfg, me, address, p1, []) == p1 && Run(cfg, me, address, p1, [run[0]]) == p2;
  }

  /** Whatever happens after the leave, within bounds. */
  ghost predicate StaysGone(cfg: Config, me: NodeId, address: string, p: Plane, i: NodeId, wall: int) {
    forall run | Within(cfg, me, p, i, wall, run) ::
      !Desired(me, Run(cfg, me, address, NextPlane(cfg, me, address, p, Leaving(i, wall)), run).roster, i)
  }

  ghost predicate Within(cfg: Config, me: NodeId, p: Plane, i: NodeId, wall: int, run: seq<Step>) {
    var v := LeaveTomb(me, p.roster, i, p.clock, wall).version;
    forall s | s in run :: Bounded(cfg, ClusterOf(me, p.roster), i, v, s)
  }

  /** A graceful leave dominates exactly when the leaver was not on record in another cluster. */
  lemma LeavingDominatesIffOurs(cfg: Config, me: NodeId, address: string, p: Plane, i: NodeId, wall: int)
    requires RosterOk(p.roster) && i != me && cfg.RetentionMs() >= 0
    ensures StaysGone(cfg, me, address, p, i, wall) <==> LeavesOurs(me, p.roster, i)
  {
    if LeavesOurs(me, p.roster, i) {
      forall run | Within(cfg, me, p, i, wall, run)
        ensures !Desired(me, Run(cfg, me, address, NextPlane(cfg, me, address, p, Leaving(i, wall)), run).roster, i)
      {
        LeavingDominates(cfg, me, address, p, i, wall, run);
      }
    } else {
      RestartForgetsLeaver(cfg, me, address, p, i, wall);
      assert Within(cfg, me, p, i, wall, StaleReturn(me, p, i, wall));
    }
  }
}
