/** The generic two-stage lease table: healthy, then unhealthy once the TTL is over, then deleted
    once the grace window is over as well. */
module Lease {
  import opened Envelope

  datatype Lease = Lease(ttl: int, grace: int, expiresAt: real, deadline: real, lastRenew: real, healthy: bool)

  type Table<K> = map<K, Lease>

  datatype Event<K> =
    | Install(key: K, ttl: int, grace: int, expired: bool, now: real)
    | Renew(key: K, now: real)
    | Revoke(key: K, permanent: bool, now: real)
    | Drop(key: K, now: real)
    | Sweep(now: real)

  // ---- the transitions ----

  function Installed(ttl: int, grace: int, expired: bool, now: real): Lease {
    if expired then Lease(ttl, grace, now, now + grace as real, now, false)
    else Lease(ttl, grace, now + ttl as real, now + ttl as real + grace as real, now, true)
  }

  function Renewed(l: Lease, now: real): Lease {
    l.(lastRenew := now, expiresAt := now + l.ttl as real,
       deadline := now + l.ttl as real + l.grace as real, healthy := true)
  }

  function Revoked(l: Lease, now: real): Lease {
    l.(healthy := false, expiresAt := now, deadline := now + l.grace as real)
  }

  predicate TurnsUnhealthy(l: Lease, now: real) {
    l.healthy && now >= l.expiresAt
  }

  /** Swept away: unhealthy, possibly only since this pass, and past the grace deadline. */
  predicate Dies(l: Lease, now: real) {
    (!l.healthy || now >= l.expiresAt) && now >= l.deadline
  }

  function Newly<K>(t: Table<K>, now: real): set<K> {
    set k | k in t && TurnsUnhealthy(t[k], now)
  }

  function Deleted<K>(t: Table<K>, now: real): set<K> {
    set k | k in t && Dies(t[k], now)
  }

  function Swept<K>(t: Table<K>, now: real): Table<K> {
    map k | k in t && !Dies(t[k], now) :: t[k].(healthy := t[k].healthy && now < t[k].expiresAt)
  }

  function Step<K>(t: Table<K>, e: Event<K>): Table<K> {
    match e
    case Install(k, ttl, grace, expired, now) => t[k := Installed(ttl, grace, expired, now)]
    case Renew(k, now) => if k in t then t[k := Renewed(t[k], now)] else t
    case Revoke(k, permanent, now) =>
      if k !in t then t else if permanent then t - {k} else t[k := Revoked(t[k], now)]
    case Drop(k, now) => t - {k}
    case Sweep(now) => Swept(t, now)
  }

  class LeaseTable<K(==, !new)> {
    var leases: Table<K>

    constructor ()
      ensures leases == map[]
    {
      leases := map[];
    }

    method InstallLease(key: K, ttl: int, grace: int, expired: bool, now: real) returns (lease: Lease)
      modifies this
      ensures leases == Step(old(leases), Install(key, ttl, grace, expired, now))
      ensures key in leases && lease == leases[key]
    {
      if expired {
        lease := Lease(ttl, grace, now, now + grace as real, now, false);
      } else {
        lease := Lease(ttl, grace, now + ttl as real, now + ttl as real + grace as real, now, true);
      }
      leases := leases[key := lease];
    }

    /** `None` is the KeyError of a key without lease. */
    method RenewLease(key: K, now: real) returns (lease: Option<Lease>)
      modifies this
      ensures leases == Step(old(leases), Renew(key, now))
      ensures lease == Get(leases, key) && (lease.Some? <==> key in old(leases))
    {
      if key !in leases {
        return None;
      }
      var l := leases[key];
      l := l.(lastRenew := now, expiresAt := now + l.ttl as real);
      l := l.(deadline := l.expiresAt + l.grace as real, healthy := true);
      leases := leases[key := l];
      lease := Some(l);
    }

    method RevokeLease(key: K, permanent: bool, now: real) returns (found: bool)
      modifies this
      ensures leases == Step(old(leases), Revoke(key, permanent, now))
      ensures found == (key in old(leases)) && (permanent ==> key !in leases)
      ensures found && !permanent ==>
                && key in leases && !leases[key].healthy && leases[key].expiresAt == now
                && leases[key].deadline == now + old(leases)[key].grace as real
    {
      if key !in leases {
        return false;
      }
      if permanent {
        leases := leases - {key};
      } else {
        var l := leases[key];
        leases := leases[key := l.(healthy := false, expiresAt := now, deadline := now + l.grace as real)];
      }
      found := true;
    }

    method DropLease(key: K, now: real)
      modifies this
      ensures leases == Step(old(leases), Drop(key, now))
    {
      leases := leases - {key};
    }

    method IsUnhealthy(key: K) returns (r: bool)
      ensures r == (key in leases && !leases[key].healthy)
    {
      r := key in leases && !leases[key].healthy;
    }

    /** One lease of a pass: flip it when its TTL is over, note it when it is to be deleted. */
    method Visit(key: K, now: real, ghost before: Table<K>, ghost todo: set<K>, newly: seq<K>, dead: seq<K>)
      returns (newly': seq<K>, dead': seq<K>)
      requires key in todo && todo <= before.Keys && leases == Flipped(before, todo, now)
      requires Lists(newly, Newly(before, now) - todo) && Lists(dead, Deleted(before, now) - todo)
      modifies this
      ensures leases == Flipped(before, todo - {key}, now)
      ensures Lists(newly', Newly(before, now) - (todo - {key})) && Lists(dead', Deleted(before, now) - (todo - {key}))
    {
      newly', dead' := newly, dead;
      FlippedOne(before, todo, now, key);
      VisitedOne(before, todo, now, key);
      var lease := leases[key];
      if lease.healthy && now >= lease.expiresAt {
        ListsOneMore(newly, Newly(before, now) - todo, key);
        lease := lease.(healthy := false);
        leases := leases[key := lease];
        newly' := newly + [key];
      }
      if !lease.healthy && now >= lease.deadline {
        ListsOneMore(dead, Deleted(before, now) - todo, key);
        dead' := dead + [key];
      }
    }

    /** One pass of the state machine: flips states, collects the work and removes what expired. */
    method SweepTick(now: real) returns (newlyUnhealthy: seq<K>, toDelete: seq<K>)
      modifies this
      ensures leases == Step(old(leases), Sweep(now))
      ensures Lists(newlyUnhealthy, Newly(old(leases), now))
      ensures Lists(toDelete, Deleted(old(leases), now))
    {
      newlyUnhealthy, toDelete := [], [];
      ghost var before := leases;
      var todo := leases.Keys;
      while todo != {}
        invariant todo <= before.Keys && leases == Flipped(before, todo, now)
        invariant Lists(newlyUnhealthy, Newly(before, now) - todo)
        invariant Lists(toDelete, Deleted(before, now) - todo)
        decreases |todo|
      {
        var key :| key in todo;
        newlyUnhealthy, toDelete := Visit(key, now, before, todo, newlyUnhealthy, toDelete);
        todo := todo - {key};
      }
      RemovingTheDead(before, now, toDelete);
      leases := map k | k in leases && k !in toDelete :: leases[k];
    }
  }

  lemma VisitedOne<K>(t: Table<K>, todo: set<K>, now: real, k: K)
    requires k in todo && k in t
    ensures Newly(t, now) - (todo - {k}) == (Newly(t, now) - todo) + if TurnsUnhealthy(t[k], now) then {k} else {}
    ensures Deleted(t, now) - (todo - {k}) == (Deleted(t, now) - todo) + if Dies(t[k], now) then {k} else {}
    ensures k !in Newly(t, now) - todo && k !in Deleted(t, now) - todo
    ensures k in Flipped(t, todo, now) && Flipped(t, todo, now)[k] == t[k]
  {
    NextSet(Newly(t, now), todo, k);
    NextSet(Deleted(t, now), todo, k);
  }

  /** The table when the keys in `todo` have not been looked at yet. */
  function Flipped<K>(t: Table<K>, todo: set<K>, now: real): Table<K> {
    map k | k in t :: if k in todo then t[k] else t[k].(healthy := t[k].healthy && now < t[k].expiresAt)
  }

  lemma FlippedOne<K>(t: Table<K>, todo: set<K>, now: real, k: K)
    requires k in todo && k in t
    ensures Flipped(t, todo - {k}, now)
         == (if TurnsUnhealthy(t[k], now) then Flipped(t, todo, now)[k := t[k].(healthy := false)]
             else Flipped(t, todo, now))
  {
  }

  lemma RemovingTheDead<K(!new)>(t: Table<K>, now: real, dead: seq<K>)
    requires Lists(dead, Deleted(t, now) - {})
    ensures (map k | k in Flipped(t, {}, now) && k !in dead :: Flipped(t, {}, now)[k]) == Swept(t, now)
    ensures Newly(t, now) - {} == Newly(t, now) && Deleted(t, now) - {} == Deleted(t, now)
  {
    var f := Flipped(t, {}, now);
    var left := map k | k in f && k !in dead :: f[k];
    forall k
      ensures k in left <==> k in Swept(t, now)
      ensures k in left ==> left[k] == Swept(t, now)[k]
    {
      assert k in dead <==> k in Deleted(t, now);
    }
    assert left == Swept(t, now);
  }

  /** Each element of the set, once. */
  ghost predicate Lists<K(!new)>(s: seq<K>, of: set<K>) {
    (forall k :: k in s <==> k in of) && forall i, j | 0 <= i < j < |s| :: s[i] != s[j]
  }

  lemma ListsOneMore<K(!new)>(s: seq<K>, of: set<K>, k: K)
    requires Lists(s, of) && k !in of
    ensures Lists(s + [k], of + {k})
  {
    assert forall x :: x in s + [k] <==> x in s || x == k;
    assert forall i | 0 <= i < |s| :: s[i] in s;
  }

  lemma NextSet<K>(all: set<K>, todo: set<K>, k: K)
    requires k in todo
    ensures all - (todo - {k}) == (all - todo) + if k in all then {k} else {}
  {
  }

  // ---- the table against its history ----

  function Replay<K>(h: seq<Event<K>>): Table<K> {
    if h == [] then map[] else Step(Replay(h[..|h| - 1]), h[|h| - 1])
  }

  /** The terms of the latest install of `k`. */
  function Terms<K(==)>(h: seq<Event<K>>, k: K): Option<(int, int)> {
    if h == [] then None
    else
      var e := h[|h| - 1];
      if e.Install? && e.key == k then Some((e.ttl, e.grace)) else Terms(h[..|h| - 1], k)
  }

  /** When `k` is due for deletion, by its history alone: the latest install, renewal or revocation
      sets the deadline; a removal, or a sweep at or after the deadline, ends it. Whether the lease is
      healthy does not matter. */
  function Due<K(==)>(h: seq<Event<K>>, k: K): Option<real> {
    if h == [] then None
    else
      var front, e := h[..|h| - 1], h[|h| - 1];
      var due := Due(front, k);
      match e
      case Install(key, ttl, grace, expired, now) =>
        if key == k then Some(now + (if expired then 0.0 else ttl as real) + grace as real) else due
      case Renew(key, now) =>
        if key == k && due.Some? && Terms(front, k).Some?
        then Some(now + Terms(front, k).value.0 as real + Terms(front, k).value.1 as real) else due
      case Revoke(key, permanent, now) =>
        if key != k || due.None? then due
        else if permanent || Terms(front, k).None? then None
        else Some(now + Terms(front, k).value.1 as real)
      case Drop(key, now) => if key == k then None else due
      case Sweep(now) => if due.Some? && due.value <= now then None else due
  }

  /** TTLs and grace windows are not negative. */
  predicate SaneTerms<K(==, !new)>(h: seq<Event<K>>) {
    forall e | e in h && e.Install? :: e.ttl >= 0 && e.grace >= 0
  }

  /** What the table knows about `k` is what the history says. */
  ghost predicate Agrees<K(!new)>(t: Table<K>, h: seq<Event<K>>, k: K) {
    && (k in t <==> Due(h, k).Some?)
    && (k in t ==>
          && t[k].deadline == Due(h, k).value && t[k].expiresAt <= t[k].deadline
          && Terms(h, k) == Some((t[k].ttl, t[k].grace)) && t[k].ttl >= 0 && t[k].grace >= 0)
  }

  lemma {:induction false} TableIsHistory<K(!new)>(h: seq<Event<K>>, k: K)
    requires SaneTerms(h)
    ensures Agrees(Replay(h), h, k)
  {
    if h != [] {
      var front, e := h[..|h| - 1], h[|h| - 1];
      assert h == front + [e];
      TableIsHistory(front, k);
    }
  }

  /** A sweep deletes exactly the present keys whose history implies a deadline that has passed. */
  lemma SweepDeletesTheDue<K(!new)>(h: seq<Event<K>>, now: real, k: K)
    requires SaneTerms(h)
    ensures k in Deleted(Replay(h), now) <==> Due(h, k).Some? && Due(h, k).value <= now
  {
    TableIsHistory(h, k);
  }

  predicate Concerns<K(==)>(e: Event<K>, k: K) {
    !e.Sweep? && e.key == k
  }

  predicate Quiet<K(==)>(h: seq<Event<K>>, from: nat, k: K) {
    forall i | from <= i < |h| :: !Concerns(h[i], k)
  }

  predicate SweptBy<K(==)>(h: seq<Event<K>>, from: nat, at: real) {
    exists i :: from <= i < |h| && h[i].Sweep? && h[i].now >= at
  }

  /** Since the latest event about `k`, only whether some sweep ran at or after the deadline it set
      matters: not when sweeps ran otherwise, nor how many. */
  lemma {:induction false} OnlyOneSweepMatters<K(!new)>(h: seq<Event<K>>, from: nat, k: K)
    requires from <= |h| && Quiet(h, from, k) && Due(h[..from], k).Some?
    ensures Due(h, k) == if SweptBy(h, from, Due(h[..from], k).value) then None else Due(h[..from], k)
    decreases |h|
  {
    if from == |h| {
      assert h[..from] == h;
    } else {
      var front, e := h[..|h| - 1], h[|h| - 1];
      assert front[..from] == h[..from];
      assert forall i | 0 <= i < |front| :: front[i] == h[i];
      OnlyOneSweepMatters(front, from, k);
      var at := Due(h[..from], k).value;
      if SweptBy(front, from, at) {
        var i :| from <= i < |front| && front[i].Sweep? && front[i].now >= at;
        assert h[i].Sweep? && h[i].now >= at;
      } else if SweptBy(h, from, at) {
        var i :| from <= i < |h| && h[i].Sweep? && h[i].now >= at;
        assert i == |h| - 1;
      }
    }
  }

  // ---- the whole lease, by its latest event ----

  /** The latest event about `k`. */
  predicate IsLatest<K(==)>(h: seq<Event<K>>, i: nat, k: K) {
    i < |h| && Concerns(h[i], k) && Quiet(h, i + 1, k)
  }

  /** The event lets the lease live for another TTL. */
  predicate Refreshes<K>(e: Event<K>) {
    e.Renew? || (e.Install? && !e.expired)
  }

  /** When the holder last installed or renewed. */
  function LastRenewal<K(==)>(h: seq<Event<K>>, k: K): Option<real> {
    if h == [] then None
    else
      var e := h[|h| - 1];
      if (e.Install? || e.Renew?) && e.key == k then Some(e.now) else LastRenewal(h[..|h| - 1], k)
  }

  /** When a lease of these terms expires by its latest event. */
  function ExpiryAfter<K>(e: Event<K>, terms: (int, int)): real {
    if Refreshes(e) then e.now + terms.0 as real else e.now
  }

  /** What a present lease has to be, by the events alone: it expires a TTL after a renewal or an ordinary
      install, and at the event after a revocation or an expired install; its grace window follows; and it
      is healthy exactly when it was refreshed and no sweep since came at or after its expiry. */
  ghost predicate LivesBy<K>(l: Lease, h: seq<Event<K>>, i: nat, k: K)
    requires i < |h|
  {
    && Terms(h, k) == Some((l.ttl, l.grace)) && LastRenewal(h, k) == Some(l.lastRenew)
    && l.expiresAt == ExpiryAfter(h[i], (l.ttl, l.grace)) && l.deadline == l.expiresAt + l.grace as real
    && (l.healthy <==> Refreshes(h[i]) && !SweptBy(h, i + 1, l.expiresAt))
  }

  /** The health half of the history: every field of every lease, for every history. */
  lemma {:induction false} LeaseIsHistory<K(!new)>(h: seq<Event<K>>, i: nat, k: K)
    requires SaneTerms(h) && IsLatest(h, i, k) && k in Replay(h)
    ensures LivesBy(Replay(h)[k], h, i, k)
    decreases |h|, 0
  {
    var front, e := h[..|h| - 1], h[|h| - 1];
    assert h == front + [e];
    if i == |h| - 1 {
      if e.Renew? || e.Revoke? { PresentLives(front, k); }
    } else {
      assert !Concerns(h[|h| - 1], k);
      assert forall j | 0 <= j < |front| :: front[j] == h[j];
      LeaseIsHistory(front, i, k);
      SweptByOneMore(h, i + 1, Replay(front)[k].expiresAt);
    }
  }

  lemma SweptByOneMore<K(!new)>(h: seq<Event<K>>, from: nat, at: real)
    requires from < |h|
    ensures var front, e := h[..|h| - 1], h[|h| - 1];
            SweptBy(h, from, at) <==> SweptBy(front, from, at) || (e.Sweep? && e.now >= at)
  {
    var front, e := h[..|h| - 1], h[|h| - 1];
    if SweptBy(front, from, at) {
      var i :| from <= i < |front| && front[i].Sweep? && front[i].now >= at;
      assert h[i].Sweep? && h[i].now >= at;
    }
    if e.Sweep? && e.now >= at { assert h[|h| - 1].Sweep? && h[|h| - 1].now >= at; }
    if SweptBy(h, from, at) {
      var i :| from <= i < |h| && h[i].Sweep? && h[i].now >= at;
      assert i < |front| ==> front[i].Sweep? && front[i].now >= at;
    }
  }

  /** A present lease has a latest event, which does not remove it. */
  lemma {:induction false} LatestEvent<K(!new)>(h: seq<Event<K>>, k: K) returns (i: nat)
    requires k in Replay(h)
    ensures IsLatest(h, i, k) && !h[i].Drop? && !(h[i].Revoke? && h[i].permanent)
    decreases |h|
  {
    var front, e := h[..|h| - 1], h[|h| - 1];
    if Concerns(e, k) {
      i := |h| - 1;
    } else {
      i := LatestEvent(front, k);
      assert forall j | 0 <= j < |front| :: front[j] == h[j];
    }
  }

  lemma {:induction false} PresentLives<K(!new)>(h: seq<Event<K>>, k: K)
    requires SaneTerms(h) && k in Replay(h)
    ensures Terms(h, k) == Some((Replay(h)[k].ttl, Replay(h)[k].grace))
    ensures LastRenewal(h, k) == Some(Replay(h)[k].lastRenew)
    decreases |h|, 1
  {
    TableIsHistory(h, k);
    var i := LatestEvent(h, k);
    LeaseIsHistory(h, i, k);
  }

  /** A sweep reports exactly the leases whose latest event refreshed them and whose expiry it is the
      first sweep to reach. */
  lemma SweepReportsTheExpired<K(!new)>(h: seq<Event<K>>, now: real, i: nat, k: K)
    requires SaneTerms(h) && IsLatest(h, i, k) && k in Replay(h)
    ensures Terms(h, k).Some?
    ensures var at := ExpiryAfter(h[i], Terms(h, k).value);
            k in Newly(Replay(h), now) <==> Refreshes(h[i]) && now >= at && !SweptBy(h, i + 1, at)
  {
    LeaseIsHistory(h, i, k);
  }

  // ---- holders that renew in time ----

  /** `k` was installed, and ever since, up to time `until`, its latest install or renewal was less
      than a TTL ago; nobody revoked or dropped it; time never ran backwards. */
  predicate InTime<K(==)>(h: seq<Event<K>>, k: K, until: real) {
    if h == [] then false
    else
      var front, e := h[..|h| - 1], h[|h| - 1];
      e.now <= until &&
      if !Concerns(e, k) then InTime(front, k, until)
      else
        match e
        case Install(key, ttl, grace, expired, now) => !expired && until < now + ttl as real
        case Renew(key, now) =>
          Terms(front, k).Some? && until < now + Terms(front, k).value.0 as real && InTime(front, k, now)
        case _ => false
  }

  /** Some sweep since the latest install reported `k`. */
  predicate Reported<K(==)>(h: seq<Event<K>>, k: K) {
    if h == [] then false
    else
      var front, e := h[..|h| - 1], h[|h| - 1];
      if e.Install? && e.key == k then false
      else Reported(front, k) || (e.Sweep? && (k in Newly(Replay(front), e.now) || k in Deleted(Replay(front), e.now)))
  }

  lemma {:induction false} InTimeEarlier<K(!new)>(h: seq<Event<K>>, k: K, until: real, t: real)
    requires InTime(h, k, until) && t <= until && (h != [] ==> h[|h| - 1].now <= t)
    requires forall i, j | 0 <= i < j < |h| :: h[i].now <= h[j].now
    ensures InTime(h, k, t)
  {
    var front, e := h[..|h| - 1], h[|h| - 1];
    if !Concerns(e, k) {
      if front != [] { assert front[|front| - 1] == h[|h| - 2]; }
      InTimeEarlier(front, k, until, t);
    }
  }

  /** A holder that always renews before expiry stays healthy and is never reported, neither as
      unhealthy nor for deletion, however often and whenever sweeps run. */
  lemma {:induction false} PunctualHolderIsSafe<K(!new)>(h: seq<Event<K>>, k: K, until: real)
    requires InTime(h, k, until) && SaneTerms(h) && forall i, j | 0 <= i < j < |h| :: h[i].now <= h[j].now
    ensures k in Replay(h) && Replay(h)[k].healthy && until < Replay(h)[k].expiresAt
    ensures !Reported(h, k)
  {
    var front, e := h[..|h| - 1], h[|h| - 1];
    assert h == front + [e];
    TableIsHistory(front, k);
    if !Concerns(e, k) {
      PunctualHolderIsSafe(front, k, until);
    } else if e.Renew? {
      PunctualHolderIsSafe(front, k, e.now);
    }
  }

  // ---- schedules ----

  /** Sweeping at `t1` and again at `t2` leaves the table a single sweep at `t2` leaves, and reports
      the same keys, each of them once. */
  lemma SweepsCompose<K(!new)>(t: Table<K>, t1: real, t2: real)
    requires t1 <= t2
    ensures Swept(Swept(t, t1), t2) == Swept(t, t2)
    ensures Newly(t, t1) !! Newly(Swept(t, t1), t2) && Newly(t, t1) + Newly(Swept(t, t1), t2) == Newly(t, t2)
    ensures Deleted(t, t1) !! Deleted(Swept(t, t1), t2) && Deleted(t, t1) + Deleted(Swept(t, t1), t2) == Deleted(t, t2)
  {
  }

  /** The table after any sequence of sweeps is the table after the latest of them alone. */
  function SweptAll<K>(t: Table<K>, times: seq<real>): Table<K> {
    if times == [] then t else Swept(SweptAll(t, times[..|times| - 1]), times[|times| - 1])
  }

  lemma {:induction false} OnlyTheLastSweepCounts<K(!new)>(t: Table<K>, times: seq<real>)
    requires times != [] && forall i, j | 0 <= i < j < |times| :: times[i] <= times[j]
    ensures SweptAll(t, times) == Swept(t, times[|times| - 1])
  {
    var front := times[..|times| - 1];
    if front != [] {
      OnlyTheLastSweepCounts(t, front);
      SweepsCompose(t, front[|front| - 1], times[|times| - 1]);
    }
  }

  /** Under any schedule a key is reported deleted at most once per install. */
  lemma DeletedOncePerInstall<K(!new)>(h: seq<Event<K>>, i: nat, j: nat, k: K)
    requires i < j < |h| && h[i].Sweep? && h[j].Sweep?
    requires k in Deleted(Replay(h[..i]), h[i].now) && k in Deleted(Replay(h[..j]), h[j].now)
    ensures exists m :: i < m < j && h[m].Install? && h[m].key == k
  {
    assert h[..i + 1][..i] == h[..i];
    if forall m | i < m < j :: !(h[m].Install? && h[m].key == k) {
      AbsentStays(h, i + 1, j, k);
    }
  }

  lemma {:induction false} AbsentStays<K(!new)>(h: seq<Event<K>>, a: nat, b: nat, k: K)
    requires a <= b <= |h| && k !in Replay(h[..a])
    requires forall m | a <= m < b :: !(h[m].Install? && h[m].key == k)
    ensures k !in Replay(h[..b])
    decreases b
  {
    if a < b {
      AbsentStays(h, a, b - 1, k);
      assert h[..b][..b - 1] == h[..b - 1];
    }
  }
}
