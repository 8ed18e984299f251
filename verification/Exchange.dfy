/** Why transferring only the differing buckets, and only the newer rows of those, is the same
    as exchanging everything. */
module Exchange {
  import opened Envelope
  import opened Merkle
  import opened Node

  /** Namespaces a caller may see: its session's, else (no session) all local datasets, narrowed
      to what it asked for when it asked for something. */
  function Allowed(n: Node, from: NodeId, requested: set<string>): set<string> {
    var base := if from in n.sessions then n.sessions[from].namespaces else n.datasets;
    if requested == {} then base else base * requested
  }

  function RowsIn(sha: Sha, idx: Index, n: nat, buckets: set<nat>): Index
    requires n > 0
  {
    map k | k in idx && BucketOf(sha, k, n) in buckets :: idx[k]
  }

  /** Keys whose version in `theirs` wins over the one in `ours`. */
  function NewerKeys(theirs: Index, ours: Index): set<Key> {
    set k | k in theirs && Newer(theirs[k], Get(ours, k))
  }

  lemma SameEntryInBucket(sha: Sha, x: Index, n: nat, y: Index, m: nat, k: Key)
    requires n > 0 && m > 0 && k in x && CleanIndex(x) && CleanIndex(y) && !Collision(sha, x, n, y, m)
    requires BucketOf(sha, k, n) !in DifferingBuckets(BucketHashes(sha, x, n), BucketHashes(sha, y, m))
    ensures k in y && y[k] == x[k] && BucketOf(sha, k, m) == BucketOf(sha, k, n)
  {
    var b := BucketOf(sha, k, n);
    var hx, hy := BucketHashes(sha, x, n), BucketHashes(sha, y, m);
    assert b in hx;
    BucketHashExact(sha, x, n, y, m, b);
    assert k in Restrict(sha, x, n, b);
    assert k in Restrict(sha, y, m, b);
    assert Restrict(sha, y, m, b)[k] == Restrict(sha, x, n, b)[k];
  }

  lemma DifferingSymmetric(sha: Sha, x: Index, n: nat, y: Index, m: nat)
    requires n > 0 && m > 0
    ensures DifferingBuckets(BucketHashes(sha, x, n), BucketHashes(sha, y, m))
         == DifferingBuckets(BucketHashes(sha, y, m), BucketHashes(sha, x, n))
    ensures Collision(sha, x, n, y, m) <==> Collision(sha, y, m, x, n)
  {
    if Collision(sha, x, n, y, m) { CollisionFlips(sha, x, n, y, m); }
    if Collision(sha, y, m, x, n) { CollisionFlips(sha, y, m, x, n); }
  }

  lemma CollisionFlips(sha: Sha, x: Index, n: nat, y: Index, m: nat)
    requires n > 0 && m > 0 && Collision(sha, x, n, y, m)
    ensures Collision(sha, y, m, x, n)
  {
    if EntryCollision(sha, x, y) {
      var k, l :| k in x && l in y &&
        EntryText(k, x[k]) != EntryText(l, y[l]) && EntryDigest(sha, k, x[k]) == EntryDigest(sha, l, y[l]);
      assert EntryCollision(sha, y, x);
    } else {
      var b :| b in UsedBuckets(sha, x, n) && b in UsedBuckets(sha, y, m) &&
        Blob(sha, x, n, b) != Blob(sha, y, m, b) && sha.bytes(Blob(sha, x, n, b)) == sha.bytes(Blob(sha, y, m, b));
      assert BlobCollision(sha, y, m, x, n);
    }
  }

  /** The heart of the bucketed fast path: comparing only the rows of the differing buckets picks
      exactly the keys a comparison of the whole indexes picks, in both directions and for any
      two bucket counts, or two hashed inputs collide. */
  lemma SelectionExact(sha: Sha, x: Index, n: nat, y: Index, m: nat)
    requires n > 0 && m > 0 && CleanIndex(x) && CleanIndex(y) && !Collision(sha, x, n, y, m)
    ensures var diff := DifferingBuckets(BucketHashes(sha, x, n), BucketHashes(sha, y, m));
            var sub, rows := RowsIn(sha, x, n, diff), RowsIn(sha, y, m, diff);
            && NewerKeys(rows, sub) == NewerKeys(y, x)
            && NewerKeys(sub, rows) == NewerKeys(x, y)
  {
    HalfSelectionExact(sha, x, n, y, m);
    DifferingSymmetric(sha, x, n, y, m);
    HalfSelectionExact(sha, y, m, x, n);
  }

  lemma HalfSelectionExact(sha: Sha, x: Index, n: nat, y: Index, m: nat)
    requires n > 0 && m > 0 && CleanIndex(x) && CleanIndex(y) && !Collision(sha, x, n, y, m)
    ensures var diff := DifferingBuckets(BucketHashes(sha, x, n), BucketHashes(sha, y, m));
            NewerKeys(RowsIn(sha, x, n, diff), RowsIn(sha, y, m, diff)) == NewerKeys(x, y)
  {
    var diff := DifferingBuckets(BucketHashes(sha, x, n), BucketHashes(sha, y, m));
    var sub, rows := RowsIn(sha, x, n, diff), RowsIn(sha, y, m, diff);
    DifferingSymmetric(sha, x, n, y, m);
    forall k ensures k in NewerKeys(sub, rows) <==> k in NewerKeys(x, y) {
      if k in x {
        VersionOrder(x[k], x[k], x[k]);
        if BucketOf(sha, k, n) !in diff {
          SameEntryInBucket(sha, x, n, y, m, k);
        } else if k in y && BucketOf(sha, k, m) !in diff {
          SameEntryInBucket(sha, y, m, x, n, k);
        }
      }
    }
  }

  /** The same when the rows that are read (`z`) are newer than the hashes that were compared (`y`): a
      key both report in a version that beats ours is pulled. */
  lemma PullCovers(sha: Sha, x: Index, n: nat, y: Index, m: nat, z: Index, k: Key)
    requires n > 0 && m > 0 && CleanIndex(x) && CleanIndex(y) && !Collision(sha, x, n, y, m)
    requires k in y && k in z && y[k] == z[k] && Newer(y[k], Get(x, k))
    ensures var diff := DifferingBuckets(BucketHashes(sha, x, n), BucketHashes(sha, y, m));
            k in NewerKeys(RowsIn(sha, z, m, diff), RowsIn(sha, x, n, diff))
  {
    var diff := DifferingBuckets(BucketHashes(sha, x, n), BucketHashes(sha, y, m));
    DifferingSymmetric(sha, x, n, y, m);
    VersionOrder(y[k], y[k], y[k]);
    if BucketOf(sha, k, m) !in diff { SameEntryInBucket(sha, y, m, x, n, k); }
  }

  /** And a key whose version beats what both report is pushed. */
  lemma PushCovers(sha: Sha, x: Index, n: nat, y: Index, m: nat, z: Index, k: Key)
    requires n > 0 && m > 0 && CleanIndex(x) && CleanIndex(y) && !Collision(sha, x, n, y, m)
    requires k in x && Newer(x[k], Get(y, k)) && Newer(x[k], Get(z, k))
    ensures var diff := DifferingBuckets(BucketHashes(sha, x, n), BucketHashes(sha, y, m));
            k in NewerKeys(RowsIn(sha, x, n, diff), RowsIn(sha, z, m, diff))
  {
    var diff := DifferingBuckets(BucketHashes(sha, x, n), BucketHashes(sha, y, m));
    VersionOrder(x[k], x[k], x[k]);
    if BucketOf(sha, k, n) !in diff { SameEntryInBucket(sha, x, n, y, m, k); }
  }

  // ---- the pull and the push, filtered and unfiltered ----

  function Filter(o: Overlay, ks: set<Key>): Overlay {
    map k | k in o && k in ks :: o[k]
  }

  lemma AbsorbFilter(l: Node, offer: Overlay, ks: set<Key>, now: real)
    requires Taken(l, offer, now) <= ks
    ensures Absorb(l, Filter(offer, ks), now) == Absorb(l, offer, now)
    ensures Taken(l, Filter(offer, ks), now) == Taken(l, offer, now)
  {
    assert forall k | k in offer && Accepts(l, offer[k], now) :: k in Taken(l, offer, now);
  }

  /** Whatever a whole pull would store beats our index. */
  lemma TakenBeatsIndex(l: Node, r: Node, ns: set<string>, allowed: set<string>, now: real)
    requires OverlayOk(l) && OverlayOk(r)
    requires ns != {} ==> allowed <= ns
    ensures var x, y := FullIndex(l, ns), VisibleIndex(r, allowed);
            Taken(l, Offer(r, y), now) <= NewerKeys(y, x)
  {
    var x, y := FullIndex(l, ns), VisibleIndex(r, allowed);
    forall k | k in Taken(l, Offer(r, y), now)
      ensures k in NewerKeys(y, x)
    {
      VisibleEntry(r, allowed, k);
      IndexEntry(l, ns, k);
    }
  }

  /** Whatever a push of everything would store beats the rows the peer shows. */
  lemma TakenBeatsRows(l: Node, r: Node, ns: set<string>, allowed: set<string>, now: real)
    requires OverlayOk(l) && OverlayOk(r)
    ensures var x, y := FullIndex(l, ns), VisibleIndex(r, allowed);
            Taken(r, Offer(l, x), now) <= NewerKeys(x, y)
  {
    var x, y := FullIndex(l, ns), VisibleIndex(r, allowed);
    forall k | k in Taken(r, Offer(l, x), now)
      ensures k in NewerKeys(x, y)
    {
      IndexEntry(l, ns, k);
      VisibleEntry(r, allowed, k);
    }
  }

  lemma NewerDisjoint(x: Index, y: Index)
    ensures NewerKeys(x, y) !! NewerKeys(y, x)
  {
    forall k | k in x && k in y ensures !(After(x[k], y[k]) && After(y[k], x[k])) {
      VersionOrder(x[k], y[k], y[k]);
    }
  }

  /** An envelope that is pushed is the one we held before the pull. */
  lemma PushedUnchanged(l: Node, r: Node, ns: set<string>, allowed: set<string>, now: real, k: Key)
    requires OverlayOk(l) && OverlayOk(r)
    requires ns != {} ==> allowed <= ns
    requires k in NewerKeys(FullIndex(l, ns), VisibleIndex(r, allowed))
    ensures var after := l.(foreign := Absorb(l, Offer(r, VisibleIndex(r, allowed)), now));
            BuildFor(after, k) == BuildFor(l, k)
  {
    var x, y := FullIndex(l, ns), VisibleIndex(r, allowed);
    TakenBeatsIndex(l, r, ns, allowed, now);
    NewerDisjoint(x, y);
  }

  lemma OfferCongruent(a: Node, b: Node, idx: Index, ks: set<Key>)
    requires forall k | k in ks :: BuildFor(a, k) == BuildFor(b, k)
    ensures Filter(Offer(a, idx), ks) == Filter(Offer(b, idx), ks)
  {
  }

  /** What is pushed after the pull is what would have been pushed before it. */
  lemma PushBuiltLater(l: Node, r: Node, ns: set<string>, allowed: set<string>, now: real)
    requires OverlayOk(l) && OverlayOk(r)
    requires ns != {} ==> allowed <= ns
    ensures var x, y := FullIndex(l, ns), VisibleIndex(r, allowed);
            var after := l.(foreign := Absorb(l, Offer(r, y), now));
            Filter(Offer(after, x), NewerKeys(x, y)) == Filter(Offer(l, x), NewerKeys(x, y))
  {
    var x, y := FullIndex(l, ns), VisibleIndex(r, allowed);
    var after := l.(foreign := Absorb(l, Offer(r, y), now));
    forall k | k in NewerKeys(x, y) ensures BuildFor(after, k) == BuildFor(l, k) {
      PushedUnchanged(l, r, ns, allowed, now, k);
    }
    OfferCongruent(after, l, x, NewerKeys(x, y));
  }

  // ---- a batch in list order ----

  /** `envs` lists exactly the envelopes of `o`, each key once. */
  ghost predicate Lists(envs: seq<Envelope>, o: Overlay) {
    && Keyed(o)
    && (forall i | 0 <= i < |envs| :: envs[i].key in o && o[envs[i].key] == envs[i])
    && (forall i, j | 0 <= i < j < |envs| :: envs[i].key != envs[j].key)
    && (forall k | k in o :: o[k] in envs)
  }

  lemma TakenOne(n: Node, o: Overlay, last: Envelope, now: real)
    requires last.key !in o
    ensures var all := o[last.key := last];
            && Taken(n, all, now) == Taken(n, o, now) + (if Accepts(n, last, now) then {last.key} else {})
            && last.key !in Taken(n, o, now)
  {
  }

  lemma AbsorbGrows(n: Node, o: Overlay, last: Envelope, now: real)
    requires last.key !in o
    ensures var so, all := Absorb(n, o, now), Absorb(n, o[last.key := last], now);
            all == if Accepts(n, last, now) then so[last.key := last] else so
  {
    TakenOne(n, o, last, now);
  }

  lemma AbsorbOne(n: Node, o: Overlay, last: Envelope, now: real)
    requires last.key !in o
    ensures var m := n.(foreign := Absorb(n, o, now));
            var all := o[last.key := last];
            && Accepts(m, last, now) == Accepts(n, last, now)
            && Apply(m, last, now) == n.(foreign := Absorb(n, all, now))
  {
    var m := n.(foreign := Absorb(n, o, now));
    TakenOne(n, o, last, now);
    assert VersionAt(m.foreign, last.key) == VersionAt(n.foreign, last.key);
    AbsorbGrows(n, o, last, now);
  }

  /** One delivery is an offer of one envelope. */
  lemma ApplyIsAbsorb(n: Node, e: Envelope, now: real)
    ensures Apply(n, e, now) == n.(foreign := Absorb(n, map[e.key := e], now))
  {
    var offer: Overlay := map[e.key := e];
    assert Taken(n, offer, now) == if Accepts(n, e, now) then {e.key} else {};
    assert Apply(n, e, now).foreign == Absorb(n, offer, now);
  }

  lemma ListFront(envs: seq<Envelope>, o: Overlay)
    requires envs != [] && Lists(envs, o)
    ensures var last, front := envs[|envs| - 1], envs[..|envs| - 1];
            Lists(front, o - {last.key}) && last.key in o && o == (o - {last.key})[last.key := last]
  {
    var last, front := envs[|envs| - 1], envs[..|envs| - 1];
    var o' := o - {last.key};
    forall k | k in o' ensures o'[k] in front {
      assert o[k] in envs && o[k].key == k;
      var i :| 0 <= i < |envs| && envs[i] == o[k];
    }
  }

  /** Applying a list in order, one envelope per key, stores what offering the whole map stores,
      and counts the keys that changed. */
  lemma {:induction false} ListIsAbsorb(n: Node, envs: seq<Envelope>, o: Overlay, now: real)
    requires Lists(envs, o)
    ensures ApplyList(n, envs, now) == n.(foreign := Absorb(n, o, now))
    ensures CountStored(n, envs, now) == |Taken(n, o, now)|
    decreases |envs|
  {
    if envs == [] {
      assert o.Keys == {};
    } else {
      var last, front := envs[|envs| - 1], envs[..|envs| - 1];
      assert envs == front + [last];
      ListFront(envs, o);
      ListIsAbsorb(n, front, o - {last.key}, now);
      ListStep(n, front, o - {last.key}, last, now);
    }
  }

  lemma ListStep(n: Node, front: seq<Envelope>, rest: Overlay, last: Envelope, now: real)
    requires last.key !in rest
    requires ApplyList(n, front, now) == n.(foreign := Absorb(n, rest, now))
    requires CountStored(n, front, now) == |Taken(n, rest, now)|
    ensures ApplyList(n, front + [last], now) == n.(foreign := Absorb(n, rest[last.key := last], now))
    ensures CountStored(n, front + [last], now) == |Taken(n, rest[last.key := last], now)|
  {
    TakenOne(n, rest, last, now);
    AbsorbOne(n, rest, last, now);
    assert (front + [last])[..|front|] == front;
  }

  // ---- the envelopes that travel ----

  /** What building an envelope for each of `keys` yields. */
  function Built(n: Node, keys: set<Key>): Overlay {
    map k | k in keys && BuildFor(n, k).Some? :: BuildFor(n, k).value
  }

  /** What `serve_pull` answers: only keys of datasets the caller's session covers. */
  function Served(n: Node, from: NodeId, keys: set<Key>): Overlay {
    map k | k in keys && k.dataset in Allowed(n, from, {}) && BuildFor(n, k).Some? :: BuildFor(n, k).value
  }

  /** What `l` reconciling over a session with namespaces `ns` compares: its own index and the
      rows `r` shows it. */
  function OurView(l: Node, ns: set<string>): Index {
    FullIndex(l, ns)
  }

  function TheirView(r: Node, from: NodeId, ns: set<string>): Index {
    VisibleIndex(r, Allowed(r, from, ns))
  }

  lemma SentKeyed(n: Node, from: NodeId, keys: set<Key>)
    requires OverlayOk(n)
    ensures Keyed(Built(n, keys)) && Keyed(Served(n, from, keys))
  {
  }

  lemma ViewsClean(n: Node, ns: set<string>, from: NodeId)
    requires OverlayOk(n) && CleanIndex(FullIndex(n, {}))
    ensures CleanIndex(OurView(n, ns)) && CleanIndex(TheirView(n, from, ns))
  {
    forall k
      ensures k in OurView(n, ns) ==> k in FullIndex(n, {})
      ensures k in TheirView(n, from, ns) ==> k in FullIndex(n, {})
    {
      IndexEntry(n, ns, k);
      IndexEntry(n, {}, k);
      VisibleEntry(n, Allowed(n, from, ns), k);
    }
  }

  lemma ServedIsFilter(r: Node, from: NodeId, ns: set<string>, ks: set<Key>)
    requires OverlayOk(r) && ks <= TheirView(r, from, ns).Keys
    ensures Served(r, from, ks) == Filter(Offer(r, TheirView(r, from, ns)), ks)
  {
    forall k | k in ks ensures k.dataset in Allowed(r, from, {}) {
      VisibleEntry(r, Allowed(r, from, ns), k);
    }
  }

  /** The pull of the winning rows stores exactly what a pull of everything would store. */
  lemma PullStage(l: Node, r: Node, ns: set<string>, now: real)
    requires OverlayOk(l) && OverlayOk(r)
    ensures var x, y := OurView(l, ns), TheirView(r, l.id, ns);
            var sent := Served(r, l.id, NewerKeys(y, x));
            && Absorb(l, sent, now) == Absorb(l, Offer(r, y), now)
            && Taken(l, sent, now) == Taken(l, Offer(r, y), now) <= NewerKeys(y, x)
  {
    var x, y := OurView(l, ns), TheirView(r, l.id, ns);
    TakenBeatsIndex(l, r, ns, Allowed(r, l.id, ns), now);
    AbsorbFilter(l, Offer(r, y), NewerKeys(y, x), now);
    ServedIsFilter(r, l.id, ns, NewerKeys(y, x));
  }

  lemma BuiltIsFilter(n: Node, idx: Index, ks: set<Key>)
    requires ks <= idx.Keys
    ensures Built(n, ks) == Filter(Offer(n, idx), ks)
  {
  }

  /** The push of the winning rows, built after the pull, stores at the peer exactly what a push
      of everything we had before would store. */
  lemma PushStage(l: Node, r: Node, ns: set<string>, now: real, rnow: real)
    requires OverlayOk(l) && OverlayOk(r)
    ensures var x, y := OurView(l, ns), TheirView(r, l.id, ns);
            var after := l.(foreign := Absorb(l, Offer(r, y), now));
            var sent := Built(after, NewerKeys(x, y));
            && Absorb(r, sent, rnow) == Absorb(r, Offer(l, x), rnow)
            && Taken(r, sent, rnow) == Taken(r, Offer(l, x), rnow) <= NewerKeys(x, y)
  {
    var x, y := OurView(l, ns), TheirView(r, l.id, ns);
    var after := l.(foreign := Absorb(l, Offer(r, y), now));
    PushBuiltLater(l, r, ns, Allowed(r, l.id, ns), now);
    TakenBeatsRows(l, r, ns, Allowed(r, l.id, ns), rnow);
    AbsorbFilter(r, Offer(l, x), NewerKeys(x, y), rnow);
    BuiltIsFilter(after, x, NewerKeys(x, y));
  }

  /** A touched session changes nothing a caller can see. */
  lemma TouchInvisible(r: Node, from: NodeId, now: real)
    ensures var t := Touch(r, from, now);
            && (forall k :: BuildFor(t, k) == BuildFor(r, k))
            && (forall who, ns ::
                  Allowed(t, who, ns) == Allowed(r, who, ns) && TheirView(t, who, ns) == TheirView(r, who, ns))
            && Touch(t, from, now) == t
            && (forall env :: Accepts(t, env, now) == Accepts(r, env, now))
  {
    var t := Touch(r, from, now);
    assert forall k :: BuildLocal(t, LocalOf(k)) == BuildLocal(r, LocalOf(k));
    assert OwnKeys(t) == OwnKeys(r);
    forall who, ns
      ensures Allowed(t, who, ns) == Allowed(r, who, ns) && TheirView(t, who, ns) == TheirView(r, who, ns)
    {
      assert forall a :: LocalIndex(t, a) == LocalIndex(r, a);
    }
  }

  /** Overlays stay keyed and free of the node's own origin. */
  lemma AbsorbOk(l: Node, offer: Overlay, now: real)
    requires OverlayOk(l) && Keyed(offer)
    ensures OverlayOk(l.(foreign := Absorb(l, offer, now)))
  {
  }

  // ---- one reconcile, as rows and envelopes ----

  function PullSet(sha: Sha, x: Index, n: nat, y: Index, m: nat, diff: set<nat>): set<Key>
    requires n > 0 && m > 0
  {
    NewerKeys(RowsIn(sha, y, m, diff), RowsIn(sha, x, n, diff))
  }

  lemma NoBucketsNoRows(sha: Sha, x: Index, n: nat, y: Index, m: nat)
    requires n > 0 && m > 0
    ensures PullSet(sha, x, n, y, m, {}) == {} && PullSet(sha, y, m, x, n, {}) == {}
  {
  }

  /** The overlays both sides hold once the rows `pull` and then the rows `push` travelled. */
  function PulledState(l: Node, r: Node, pull: set<Key>, now: real): Node {
    l.(foreign := Absorb(l, Served(r, l.id, pull), now))
  }

  lemma PulledStateOk(l: Node, r: Node, pull: set<Key>, now: real)
    requires OverlayOk(l) && OverlayOk(r)
    ensures OverlayOk(PulledState(l, r, pull, now))
  {
    SentKeyed(r, l.id, pull);
  }

  function PushedOverlay(after: Node, r: Node, push: set<Key>, rnow: real): Overlay {
    Absorb(r, Built(after, push), rnow)
  }

  lemma NoKeysNothingSent(n: Node, r: Node, from: NodeId, now: real)
    ensures Served(r, from, {}) == map[] && Built(n, {}) == map[]
    ensures Absorb(n, map[], now) == n.foreign && Taken(n, map[], now) == {}
  {
  }

  /** Without a collision the bucketed selection makes one reconcile a whole-index exchange in
      both directions. */
  lemma ReconcileExact(sha: Sha, l: Node, n: nat, r: Node, m: nat, ns: set<string>, now: real, rnow: real)
    requires OverlayOk(l) && OverlayOk(r) && n > 0 && m > 0
    requires CleanIndex(FullIndex(l, {})) && CleanIndex(FullIndex(r, {}))
    requires !Collision(sha, OurView(l, ns), n, TheirView(r, l.id, ns), m)
    ensures var x, y := OurView(l, ns), TheirView(r, l.id, ns);
            var diff := DifferingBuckets(BucketHashes(sha, x, n), BucketHashes(sha, y, m));
            var pull, push := PullSet(sha, x, n, y, m, diff), PullSet(sha, y, m, x, n, diff);
            var after := PulledState(l, r, pull, now);
            && after.foreign == Absorb(l, Offer(r, y), now)
            && Taken(l, Served(r, l.id, pull), now) == Taken(l, Offer(r, y), now)
            && PushedOverlay(after, r, push, rnow) == Absorb(r, Offer(l, x), rnow)
            && Taken(r, Built(after, push), rnow) == Taken(r, Offer(l, x), rnow)
  {
    PullStage(l, r, ns, now);
    PushStage(l, r, ns, now, rnow);
    ViewsClean(l, ns, l.id);
    ViewsClean(r, ns, l.id);
    SelectionExact(sha, OurView(l, ns), n, TheirView(r, l.id, ns), m);
  }

  /** Two nodes that show each other equal indexes store nothing of what the other offers. */
  lemma SameViewsIdle(l: Node, r: Node, ns: set<string>, now: real)
    requires OverlayOk(l) && OverlayOk(r) && OurView(l, ns) == TheirView(r, l.id, ns)
    ensures Taken(l, Offer(r, TheirView(r, l.id, ns)), now) == {}
    ensures Taken(r, Offer(l, OurView(l, ns)), now) == {}
  {
    NoneNewer(OurView(l, ns));
    PullStage(l, r, ns, now);
    PushStage(l, r, ns, now, now);
  }

  lemma NoneNewer(x: Index)
    ensures NewerKeys(x, x) == {}
  {
    forall k | k in x ensures !After(x[k], x[k]) {
      VersionOrder(x[k], x[k], x[k]);
    }
  }

  // ---- deliveries in any order ----

  /** The envelopes of a list that may be stored at all: foreign and not suppressed. */
  function Eligible(n: Node, envs: seq<Envelope>, now: real): seq<Envelope> {
    if envs == [] then []
    else
      var e := envs[|envs| - 1];
      Eligible(n, envs[..|envs| - 1], now)
      + (if e.key.origin != n.id && !Suppressed(n, e.key.origin, now) then [e] else [])
  }

  lemma {:induction false} EligibleExact(n: Node, envs: seq<Envelope>, now: real, e: Envelope)
    ensures e in Eligible(n, envs, now) <==> e in envs && e.key.origin != n.id && !Suppressed(n, e.key.origin, now)
  {
    if envs != [] {
      var front, last := envs[..|envs| - 1], envs[|envs| - 1];
      assert envs == front + [last];
      EligibleExact(n, front, now, e);
    }
  }

  lemma {:induction false} WriteAllLast(o: Overlay, envs: seq<Envelope>, last: Envelope)
    ensures WriteAll(o, envs + [last]) == Write(WriteAll(o, envs), last)
    decreases |envs|
  {
    if envs != [] {
      assert (envs + [last])[1..] == envs[1..] + [last];
      WriteAllLast(Write(o, envs[0]), envs[1..], last);
    } else {
      assert ([last])[1..] == [] && envs + [last] == [last];
    }
  }

  lemma {:induction false} ApplyListWrites(n: Node, envs: seq<Envelope>, now: real)
    ensures ApplyList(n, envs, now) == n.(foreign := WriteAll(n.foreign, Eligible(n, envs, now)))
  {
    if envs != [] {
      var front, last := envs[..|envs| - 1], envs[|envs| - 1];
      ApplyListWrites(n, front, now);
      if last.key.origin != n.id && !Suppressed(n, last.key.origin, now) {
        WriteAllLast(n.foreign, Eligible(n, front, now), last);
      } else {
        assert Eligible(n, envs, now) == Eligible(n, front, now);
      }
    } else {
      assert n.(foreign := n.foreign) == n;
    }
  }

  lemma EligibleSame(n: Node, a: seq<Envelope>, b: seq<Envelope>, now: real)
    requires AsSet(a) == AsSet(b)
    ensures AsSet(Eligible(n, a, now)) == AsSet(Eligible(n, b, now)) <= AsSet(a)
  {
    forall e
      ensures e in Eligible(n, a, now) <==> e in Eligible(n, b, now)
      ensures e in Eligible(n, a, now) ==> e in a
    {
      EligibleExact(n, a, now, e);
      EligibleExact(n, b, now, e);
      assert e in AsSet(a) <==> e in AsSet(b);
    }
  }

  /** Duplicated and reordered deliveries leave one and the same node: it depends only on the set of
      envelopes that arrived. */
  lemma DeliveriesOrderBlind(n: Node, a: seq<Envelope>, b: seq<Envelope>, now: real)
    requires OverlayOk(n) && AsSet(a) == AsSet(b) && Functional(n.foreign.Values + AsSet(a))
    ensures ApplyList(n, a, now) == ApplyList(n, b, now)
  {
    ApplyListWrites(n, a, now);
    ApplyListWrites(n, b, now);
    EligibleSame(n, a, b, now);
    DeliveryOrderBlind(n.foreign, Eligible(n, a, now), Eligible(n, b, now));
  }
}
