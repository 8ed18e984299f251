/** Version minting over whole runs: whatever the wall clocks show, what one node mints strictly
    increases, across restarts as well exactly when the mint was saved before the first of them. */
module Minting {
  import opened Envelope
  import opened Node
  import opened Protocol

  predicate ServiceMint(w: World, s: Step) {
    s.LocalChange? || (s.StampOne? && s.i in w.nodes && Unversioned(w.nodes[s.i], s.lk))
  }

  /** The timestamp the step mints, if it mints one. */
  function Minted(w: World, s: Step): Option<int>
    requires Enabled(w, s)
  {
    match s
    case LocalChange(i, wall, lk, change) => Some(NextTs(w.nodes[i].clock, wall))
    case StampOne(i, wall, lk) => if Unversioned(w.nodes[i], lk) then Some(NextTs(w.nodes[i].clock, wall)) else None
    case MintMembership(i, wall, floor) => Some(NextTsAfter(w.nodes[i].clock, wall, floor))
    case _ => None
  }

  /** A mint is above the clock and becomes the clock; a service mint is on disk as well. */
  lemma MintMovesClock(cfg: Config, w: World, s: Step)
    requires Inv(w) && Enabled(w, s) && Minted(w, s).Some?
    ensures s.i in w.nodes && s.i in Next(cfg, w, s).nodes
    ensures w.nodes[s.i].clock < Minted(w, s).value == Next(cfg, w, s).nodes[s.i].clock
    ensures ServiceMint(w, s) ==> Next(cfg, w, s).nodes[s.i].disk.clock == Minted(w, s).value
  {
    IdsMatch(w, s.i);
  }

  lemma GcClocks(cfg: Config, n: Node, wall: int)
    requires NodeOk(n)
    ensures Gc(cfg, n, wall).clock == n.clock && Gc(cfg, n, wall).disk.clock >= n.disk.clock
  {
  }

  predicate ClocksGrow(n: Node, m: Node, s: Step) {
    m.disk.clock >= n.disk.clock && (s != Reboot(n.id) ==> m.clock >= n.clock)
  }

  lemma OneClock(cfg: Config, w: World, s: Step, i: NodeId)
    requires Enabled(w, s) && i in w.nodes && (forall j | j in w.nodes :: w.nodes[j].id == j) && NodeOk(w.nodes[i])
    ensures i in Next(cfg, w, s).nodes && ClocksGrow(w.nodes[i], Next(cfg, w, s).nodes[i], s)
  {
    if s.Collect? && s.i == i { GcClocks(cfg, w.nodes[s.i], s.wall); }
  }

  lemma StepClocks(cfg: Config, w: World, s: Step, i: NodeId)
    requires Inv(w) && Enabled(w, s) && i in w.nodes
    ensures i in Next(cfg, w, s).nodes && ClocksGrow(w.nodes[i], Next(cfg, w, s).nodes[i], s)
  {
    OkNode(w, i);
    OneClock(cfg, w, s, i);
  }

  predicate NoReboot(run: seq<Step>, i: NodeId, from: nat, to: nat)
    requires to <= |run|
  {
    forall t | from <= t < to :: run[t] != Reboot(i)
  }

  /** Step `t` of the run mints `ms` at `i`. */
  predicate MintsAt(cfg: Config, w: World, run: seq<Step>, t: nat, i: NodeId, ms: int)
    requires Valid(cfg, w, run) && t < |run| && Enabled(At(cfg, w, run, t), run[t])
  {
    Minted(At(cfg, w, run, t), run[t]) == Some(ms) && run[t].i == i
  }

  lemma DiskBehind(w: World, i: NodeId)
    requires Inv(w) && i in w.nodes
    ensures w.nodes[i].disk.clock <= w.nodes[i].clock
  {
    OkNode(w, i);
  }

  // ---- saved mints ----

  /** The step writes the saved state of `i`: a save, a change or stamp of a record, or a collection
      that drops a tombstone. */
  predicate Saves(cfg: Config, w: World, s: Step, i: NodeId) {
    match s
    case SaveState(j) => j == i
    case LocalChange(j, wall, lk, change) => j == i
    case StampOne(j, wall, lk) => j == i && i in w.nodes && Unversioned(w.nodes[i], lk)
    case Collect(j, wall) => j == i && i in w.nodes && Drops(cfg, w.nodes[i], wall)
    case _ => false
  }

  predicate Drops(cfg: Config, n: Node, wall: int) {
    exists lk :: lk in n.tombstones && Expired(cfg, n.tombstones[lk].deletedAt, wall)
  }

  lemma CollectSaves(cfg: Config, n: Node, wall: int)
    ensures GcOwn(cfg, n, wall).disk.clock == if Drops(cfg, n, wall) then n.clock else n.disk.clock
  {
    var kept := map lk | lk in n.tombstones && !Expired(cfg, n.tombstones[lk].deletedAt, wall) :: n.tombstones[lk];
    if lk :| lk in n.tombstones && Expired(cfg, n.tombstones[lk].deletedAt, wall) {
      assert lk !in kept;
    } else {
      assert kept == n.tombstones;
    }
  }

  /** A saving step writes the clock it leaves; any other step leaves the saved clock alone. */
  lemma OneDisk(cfg: Config, w: World, s: Step, i: NodeId)
    requires Enabled(w, s) && i in w.nodes && (forall j | j in w.nodes :: w.nodes[j].id == j)
    ensures i in Next(cfg, w, s).nodes
    ensures Next(cfg, w, s).nodes[i].disk.clock
         == if Saves(cfg, w, s, i) then Next(cfg, w, s).nodes[i].clock else w.nodes[i].disk.clock
  {
    if s.Collect? && s.i == i { CollectSaves(cfg, w.nodes[i], s.wall); }
  }

  lemma StepDisk(cfg: Config, w: World, s: Step, i: NodeId)
    requires Inv(w) && Enabled(w, s) && i in w.nodes
    ensures i in Next(cfg, w, s).nodes
    ensures Next(cfg, w, s).nodes[i].disk.clock
         == if Saves(cfg, w, s, i) then Next(cfg, w, s).nodes[i].clock else w.nodes[i].disk.clock
  {
    OneDisk(cfg, w, s, i);
  }

  /** Step `t` of the run writes the saved state of `i`. */
  predicate SavesAt(cfg: Config, w: World, run: seq<Step>, t: nat, i: NodeId)
    requires Valid(cfg, w, run) && t < |run|
  {
    Saves(cfg, At(cfg, w, run, t), run[t], i)
  }

  /** From the mint at step `a` on, the saved state was written before the first restart. */
  predicate SavedInTime(cfg: Config, w: World, run: seq<Step>, i: NodeId, a: nat, b: nat)
    requires Valid(cfg, w, run) && b <= |run|
  {
    exists t :: a <= t < b && NoReboot(run, i, a, t) && SavesAt(cfg, w, run, t, i)
  }

  // ---- one node's two clocks along a run ----

  datatype Reading = Reading(clock: int, disk: int)

  /** What a step does to them. */
  datatype Act = Act(mint: Option<int>, saves: bool, reboots: bool)

  function ReadingOf(w: World, i: NodeId): Reading
    requires i in w.nodes
  {
    Reading(w.nodes[i].clock, w.nodes[i].disk.clock)
  }

  function ActOf(cfg: Config, w: World, s: Step, i: NodeId): Act
    requires Enabled(w, s)
  {
    Act(if Minted(w, s).Some? && s.i == i then Minted(w, s) else None, Saves(cfg, w, s, i), s == Reboot(i))
  }

  predicate Turns(r: Reading, act: Act, r': Reading) {
    && r.disk <= r.clock && r'.disk <= r'.clock
    && (act.mint.Some? ==> r.clock < act.mint.value == r'.clock)
    && r'.disk == (if act.saves then r'.clock else r.disk)
    && (if act.reboots then !act.saves && act.mint.None? && r'.clock == r.disk else r'.clock >= r.clock)
  }

  lemma StepTurns(cfg: Config, w: World, s: Step, i: NodeId)
    requires Inv(w) && Enabled(w, s) && i in w.nodes
    ensures i in Next(cfg, w, s).nodes && Turns(ReadingOf(w, i), ActOf(cfg, w, s, i), ReadingOf(Next(cfg, w, s), i))
  {
    StepClocks(cfg, w, s, i);
    StepDisk(cfg, w, s, i);
    StepInv(cfg, w, s);
    DiskBehind(w, i);
    DiskBehind(Next(cfg, w, s), i);
    IdsMatch(w, i);
    if Minted(w, s).Some? && s.i == i { MintMovesClock(cfg, w, s); }
  }

  /** The readings of a node before every step and at the end, and what each step does to them. */
  ghost predicate Traces(cfg: Config, w: World, run: seq<Step>, i: NodeId, h: seq<Reading>, acts: seq<Act>)
    requires Valid(cfg, w, run)
  {
    && |acts| == |run| && |h| == |run| + 1
    && (forall t | 0 <= t < |run| :: Turns(h[t], acts[t], h[t + 1]))
    && (forall t | 0 <= t < |run| ::
          Enabled(At(cfg, w, run, t), run[t]) && acts[t] == ActOf(cfg, At(cfg, w, run, t), run[t], i))
    && i in Exec(cfg, w, run).nodes && h[|run|] == ReadingOf(Exec(cfg, w, run), i)
  }

  lemma {:induction false} Trace(cfg: Config, w: World, run: seq<Step>, i: NodeId)
    returns (h: seq<Reading>, acts: seq<Act>)
    requires Inv(w) && Valid(cfg, w, run) && i in w.nodes
    ensures Traces(cfg, w, run, i, h, acts)
    decreases |run|
  {
    if run == [] {
      h, acts := [ReadingOf(w, i)], [];
    } else {
      var h0, acts0 := Trace(cfg, w, Front(run), i);
      RunKeepsInv(cfg, w, Front(run));
      var u, s := Exec(cfg, w, Front(run)), Last(run);
      StepTurns(cfg, u, s, i);
      h, acts := h0 + [ReadingOf(Next(cfg, u, s), i)], acts0 + [ActOf(cfg, u, s, i)];
      Extended(cfg, w, run, i, h0, acts0, h, acts);
    }
  }

  lemma Extended(
      cfg: Config, w: World, run: seq<Step>, i: NodeId, h0: seq<Reading>, acts0: seq<Act>, h: seq<Reading>,
      acts: seq<Act>)
    requires Inv(w) && run != [] && Valid(cfg, w, run) && Traces(cfg, w, Front(run), i, h0, acts0)
    requires var u, s := Exec(cfg, w, Front(run)), Last(run);
             && i in Next(cfg, u, s).nodes && Turns(ReadingOf(u, i), ActOf(cfg, u, s, i), ReadingOf(Next(cfg, u, s), i))
             && h == h0 + [ReadingOf(Next(cfg, u, s), i)] && acts == acts0 + [ActOf(cfg, u, s, i)]
    ensures Traces(cfg, w, run, i, h, acts)
  {
    forall t | 0 <= t < |run|
      ensures Turns(h[t], acts[t], h[t + 1])
      ensures Enabled(At(cfg, w, run, t), run[t]) && acts[t] == ActOf(cfg, At(cfg, w, run, t), run[t], i)
    {
      if t < |run| - 1 {
        assert Front(run)[..t] == run[..t] && Front(run)[t] == run[t];
        assert Turns(h0[t], acts0[t], h0[t + 1]);
      } else {
        assert run[..t] == Front(run);
      }
    }
  }

  predicate NoRestart(acts: seq<Act>, from: nat, to: nat)
    requires to <= |acts|
  {
    forall t | from <= t < to :: !acts[t].reboots
  }

  predicate Turning(h: seq<Reading>, acts: seq<Act>) {
    |h| == |acts| + 1 && forall t | 0 <= t < |acts| :: Turns(h[t], acts[t], h[t + 1])
  }

  /** The saved clock never falls, and without a restart neither does the clock. */
  lemma {:induction false} ReadingsGrow(h: seq<Reading>, acts: seq<Act>, a: nat, b: nat)
    requires Turning(h, acts) && a <= b <= |acts|
    ensures h[a].disk <= h[b].disk && (NoRestart(acts, a, b) ==> h[a].clock <= h[b].clock)
    decreases b
  {
    if a < b {
      ReadingsGrow(h, acts, a, b - 1);
      assert Turns(h[b - 1], acts[b - 1], h[b]);
    }
  }

  /** A mint that is saved before the first restart is in the saved clock from then on. */
  lemma SavedMintOnDisk(h: seq<Reading>, acts: seq<Act>, a: nat, t: nat, b: nat, x: int)
    requires Turning(h, acts) && a <= t < b <= |acts| && acts[a].mint == Some(x) && acts[t].saves
    requires NoRestart(acts, a, t)
    ensures h[b].disk >= x
  {
    assert Turns(h[a], acts[a], h[a + 1]) && Turns(h[t], acts[t], h[t + 1]);
    if a < t {
      forall u | a + 1 <= u < t ensures !acts[u].reboots {}
      ReadingsGrow(h, acts, a + 1, t);
    }
    ReadingsGrow(h, acts, t + 1, b);
  }

  /** A mint that is not saved is above the saved clock. */
  lemma {:induction false} UnsavedMintNotOnDisk(h: seq<Reading>, acts: seq<Act>, a: nat, b: nat, x: int)
    requires Turning(h, acts) && a < b <= |acts| && acts[a].mint == Some(x) && forall t | a <= t < b :: !acts[t].saves
    ensures h[b].disk < x
    decreases b
  {
    assert Turns(h[b - 1], acts[b - 1], h[b]);
    if b - 1 > a { UnsavedMintNotOnDisk(h, acts, a, b - 1, x); }
  }

  /** Two mints of one node, service or membership, in the order they happen: the later one is larger,
      provided the earlier one was saved before the first restart in between, if there is one. */
  lemma MintsIncrease(cfg: Config, w: World, run: seq<Step>, i: NodeId, a: nat, b: nat, x: int, y: int)
    requires Inv(w) && Valid(cfg, w, run) && a < b < |run| && i in w.nodes
    requires Enabled(At(cfg, w, run, a), run[a]) && Enabled(At(cfg, w, run, b), run[b])
    requires MintsAt(cfg, w, run, a, i, x) && MintsAt(cfg, w, run, b, i, y)
    requires NoReboot(run, i, a, b) || SavedInTime(cfg, w, run, i, a, b)
    ensures x < y
  {
    var h, acts := Trace(cfg, w, run, i);
    assert acts[a].mint == Some(x) && acts[b].mint == Some(y);
    if SavedInTime(cfg, w, run, i, a, b) {
      SavedInTimeOnDisk(cfg, w, run, i, a, b, x, h, acts);
    } else {
      ReadingsGrow(h, acts, a + 1, b);
    }
    assert Turns(h[a], acts[a], h[a + 1]) && Turns(h[b], acts[b], h[b + 1]);
  }

  lemma SavedInTimeOnDisk(
      cfg: Config, w: World, run: seq<Step>, i: NodeId, a: nat, b: nat, x: int, h: seq<Reading>, acts: seq<Act>)
    requires Valid(cfg, w, run) && a < b < |run| && Traces(cfg, w, run, i, h, acts)
    requires acts[a].mint == Some(x) && SavedInTime(cfg, w, run, i, a, b)
    ensures h[b].disk >= x
  {
    var t :| a <= t < b && NoReboot(run, i, a, t) && SavesAt(cfg, w, run, t, i);
    SavedMintOnDisk(h, acts, a, t, b, x);
  }

  /** A service mint is saved by the very step that mints it. */
  lemma ServiceMintIsSaved(cfg: Config, w: World, run: seq<Step>, i: NodeId, a: nat, b: nat)
    requires Valid(cfg, w, run) && a < b <= |run| && Enabled(At(cfg, w, run, a), run[a])
    requires ServiceMint(At(cfg, w, run, a), run[a]) && run[a].i == i
    ensures SavedInTime(cfg, w, run, i, a, b)
  {
    assert SavesAt(cfg, w, run, a, i);
  }

  // ---- exactly when a mint stays the largest ----

  /** Whatever happens after `u`, restarts included, every later mint of `i` is larger than `x`. */
  ghost predicate NeverAgain(cfg: Config, u: World, i: NodeId, x: int) {
    forall more, s, y | Valid(cfg, u, more) && Enabled(Exec(cfg, u, more), s) && NextMint(cfg, u, more, s, i, y) ::
      x < y
  }

  predicate NextMint(cfg: Config, u: World, more: seq<Step>, s: Step, i: NodeId, y: int)
    requires Valid(cfg, u, more) && Enabled(Exec(cfg, u, more), s)
  {
    Minted(Exec(cfg, u, more), s) == Some(y) && s.i == i
  }

  lemma {:induction false} DiskOnlyGrows(cfg: Config, u: World, more: seq<Step>, i: NodeId)
    requires Inv(u) && Valid(cfg, u, more) && i in u.nodes
    ensures i in Exec(cfg, u, more).nodes && Exec(cfg, u, more).nodes[i].disk.clock >= u.nodes[i].disk.clock
    decreases |more|
  {
    if more != [] {
      DiskOnlyGrows(cfg, u, Front(more), i);
      RunKeepsInv(cfg, u, Front(more));
      StepClocks(cfg, Exec(cfg, u, Front(more)), Last(more), i);
      IdsMatch(Exec(cfg, u, Front(more)), i);
    }
  }

  /** A restart makes the saved clock the clock, and the next membership mint can be `x` once more. */
  lemma UnsavedMintRepeats(cfg: Config, u: World, i: NodeId, x: int)
    requires Inv(u) && i in u.nodes && u.nodes[i].disk.clock < x
    ensures var more, s := [Reboot(i)], MintMembership(i, x, x - 1);
            Valid(cfg, u, more) && Enabled(Exec(cfg, u, more), s) && NextMint(cfg, u, more, s, i, x)
  {
    IdsMatch(u, i);
    RebootRun(cfg, u, i);
    assert NextTsAfter(u.nodes[i].disk.clock, x, x - 1) == x;
  }

  lemma RebootRun(cfg: Config, u: World, i: NodeId)
    requires i in u.nodes && u.nodes[i].id == i
    ensures Valid(cfg, u, [Reboot(i)]) && Exec(cfg, u, [Reboot(i)]) == WithNode(u, Restart(u.nodes[i]))
  {
    var run := [Reboot(i)];
    assert Front(run) == [] && Last(run) == Reboot(i);
    assert Valid(cfg, u, Front(run)) && Exec(cfg, u, Front(run)) == u;
  }

  /** Whatever a node may still do, all its later mints exceed `x` if and only if its saved clock has
      reached `x`; and when it has not, a restart can bring `x` itself again. */
  lemma NeverAgainIffOnDisk(cfg: Config, u: World, i: NodeId, x: int)
    requires Inv(u) && i in u.nodes
    ensures NeverAgain(cfg, u, i, x) <==> u.nodes[i].disk.clock >= x
  {
    if u.nodes[i].disk.clock >= x {
      forall more, s, y | Valid(cfg, u, more) && Enabled(Exec(cfg, u, more), s) && NextMint(cfg, u, more, s, i, y)
        ensures x < y
      {
        RunKeepsInv(cfg, u, more);
        DiskOnlyGrows(cfg, u, more, i);
        DiskBehind(Exec(cfg, u, more), i);
        MintMovesClock(cfg, Exec(cfg, u, more), s);
      }
    } else {
      UnsavedMintRepeats(cfg, u, i, x);
    }
  }

  /** The exact condition: a mint stays below all later mints of the node, in every continuation of the
      run, if and only if the node saved its state at or after the mint. */
  lemma MintLastsIffSaved(cfg: Config, w: World, run: seq<Step>, i: NodeId, a: nat, x: int)
    requires Inv(w) && Valid(cfg, w, run) && a < |run| && i in w.nodes && Enabled(At(cfg, w, run, a), run[a])
    requires MintsAt(cfg, w, run, a, i, x) && NoReboot(run, i, a, |run|)
    ensures NeverAgain(cfg, Exec(cfg, w, run), i, x) <==> SavedInTime(cfg, w, run, i, a, |run|)
  {
    OnDiskIffSaved(cfg, w, run, i, a, x);
    RunKeepsInv(cfg, w, run);
    NeverAgainIffOnDisk(cfg, Exec(cfg, w, run), i, x);
  }

  lemma OnDiskIffSaved(cfg: Config, w: World, run: seq<Step>, i: NodeId, a: nat, x: int)
    requires Inv(w) && Valid(cfg, w, run) && a < |run| && i in w.nodes && Enabled(At(cfg, w, run, a), run[a])
    requires MintsAt(cfg, w, run, a, i, x) && NoReboot(run, i, a, |run|)
    ensures i in Exec(cfg, w, run).nodes
    ensures Exec(cfg, w, run).nodes[i].disk.clock >= x <==> SavedInTime(cfg, w, run, i, a, |run|)
  {
    var h, acts := Trace(cfg, w, run, i);
    assert acts[a].mint == Some(x);
    if SavedInTime(cfg, w, run, i, a, |run|) {
      var t :| a <= t < |run| && NoReboot(run, i, a, t) && SavesAt(cfg, w, run, t, i);
      SavedMintOnDisk(h, acts, a, t, |run|, x);
    } else {
      forall t | a <= t < |run| ensures !acts[t].saves {
        assert NoReboot(run, i, a, t) && !SavesAt(cfg, w, run, t, i);
      }
      UnsavedMintNotOnDisk(h, acts, a, |run|, x);
    }
  }

  lemma {:induction false} ServedStaysBuilt(cfg: Config, w: World, run: seq<Step>, t: nat, e: Envelope)
    requires Init(w) && Valid(cfg, w, run) && t <= |run| && ServedByOriginAt(cfg, w, run, t, e)
    ensures e in Exec(cfg, w, run).built
    decreases |run|
  {
    RunInv(cfg, w, run);
    var u := Exec(cfg, w, run);
    if t == |run| {
      assert run[..t] == run;
      assert NodeInv(u.nodes[e.key.origin], u.built);
    } else {
      assert run[..t] == Front(run)[..t];
      ServedStaysBuilt(cfg, w, Front(run), t, e);
    }
  }

  /** Restarts or not, a new service version exceeds every version of its records the node could
      ever have shown to a peer. */
  lemma ServiceMintExceedsAllServed(cfg: Config, w: World, run: seq<Step>, s: Step, t: nat, e: Envelope)
    requires Init(w) && Valid(cfg, w, run) && Enabled(Exec(cfg, w, run), s) && ServiceMint(Exec(cfg, w, run), s)
    requires t <= |run| && ServedByOriginAt(cfg, w, run, t, e) && e.key.origin == s.i
    ensures e.version.ms < Minted(Exec(cfg, w, run), s).value
  {
    var u := Exec(cfg, w, run);
    RunInv(cfg, w, run);
    ServedStaysBuilt(cfg, w, run, t, e);
    IdsMatch(u, s.i);
    assert NodeInv(u.nodes[s.i], u.built);
    DiskBehind(u, s.i);
    MintMovesClock(cfg, u, s);
  }
}
