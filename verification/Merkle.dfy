/** Bucketed Merkle digest of a version index. SHA-256 is an arbitrary fixed-length function;
    what it cannot exclude is stated as a collision between two inputs that really were hashed. */
module Merkle {
  import opened Order
  import opened Decimal
  import opened Envelope

  type Byte = x: nat | x < 256
  type Digest = d: seq<Byte> | |d| == 32 witness seq(32, _ => 0)

  /** `text` hashes the UTF-8 encoding of a string, `bytes` hashes a byte string. */
  datatype Sha = Sha(text: string -> Digest, bytes: seq<Byte> -> Digest)

  type Index = map<Key, Version>

  const SEP: char := '\U{001f}'

  function KeyText(k: Key): string {
    k.dataset + [SEP] + k.origin + [SEP] + k.service
  }

  function EntryText(k: Key, v: Version): string {
    KeyText(k) + [SEP] + IntText(v.ms) + [SEP] + v.node
  }

  /** Big-endian number of the first four digest bytes, modulo the bucket count. */
  function BucketOf(sha: Sha, k: Key, n: nat): (b: nat)
    requires n > 0
    ensures b < n
  {
    var h := sha.text(KeyText(k));
    (h[0] * 0x100_0000 + h[1] * 0x1_0000 + h[2] * 0x100 + h[3]) % n
  }

  function EntryDigest(sha: Sha, k: Key, v: Version): Digest {
    sha.text(EntryText(k, v))
  }

  // ---- joined texts split uniquely ----

  predicate Clean(k: Key) {
    SEP !in k.dataset && SEP !in k.origin && SEP !in k.service
  }

  predicate CleanIndex(idx: Index) {
    forall k | k in idx :: Clean(k)
  }

  lemma {:induction false} CutFirst(a: string, x: string, b: string, y: string, sep: char)
    requires sep !in a && sep !in b
    requires a + [sep] + x == b + [sep] + y
    ensures a == b && x == y
  {
    var s, t := a + [sep] + x, b + [sep] + y;
    assert forall i | 0 <= i < |a| :: s[i] == a[i] && a[i] in a;
    assert forall i | 0 <= i < |b| :: t[i] == b[i] && b[i] in b;
    assert s[|a|] == sep && t[|b|] == sep;
    assert a == s[..|a|] && b == t[..|b|];
    assert x == s[|a| + 1..] && y == t[|b| + 1..];
  }

  /** For ids without the separator the text of an entry determines the entry, whatever the
      version's node id contains. */
  lemma EntryTextInjective(k: Key, v: Version, l: Key, w: Version)
    requires Clean(k) && Clean(l)
    requires EntryText(k, v) == EntryText(l, w)
    ensures k == l && v == w
  {
    var v1, w1 := IntText(v.ms) + [SEP] + v.node, IntText(w.ms) + [SEP] + w.node;
    var k3, l3 := k.service + [SEP] + v1, l.service + [SEP] + w1;
    var k2, l2 := k.origin + [SEP] + k3, l.origin + [SEP] + l3;
    assert EntryText(k, v) == k.dataset + [SEP] + k2;
    assert EntryText(l, w) == l.dataset + [SEP] + l2;
    CutFirst(k.dataset, k2, l.dataset, l2, SEP);
    CutFirst(k.origin, k3, l.origin, l3, SEP);
    CutFirst(k.service, v1, l.service, w1, SEP);
    IntTextExcludes(v.ms, SEP);
    IntTextExcludes(w.ms, SEP);
    CutFirst(IntText(v.ms), v.node, IntText(w.ms), w.node, SEP);
    IntTextInjective(v.ms, w.ms);
  }

  // ---- sorting is a canonical form of a key set ----

  predicate KeyLess(a: Key, b: Key) {
    || StrLess(a.dataset, b.dataset)
    || (a.dataset == b.dataset && StrLess(a.origin, b.origin))
    || (a.dataset == b.dataset && a.origin == b.origin && StrLess(a.service, b.service))
  }

  lemma KeyOrder(a: Key, b: Key, c: Key)
    ensures a == b || KeyLess(a, b) || KeyLess(b, a)
    ensures KeyLess(a, b) ==> a != b && !KeyLess(b, a)
    ensures KeyLess(a, b) && KeyLess(b, c) ==> KeyLess(a, c)
  {
    StrOrder(a.dataset, b.dataset, c.dataset);
    StrOrder(a.origin, b.origin, c.origin);
    StrOrder(a.service, b.service, c.service);
  }

  lemma StrOrder(a: string, b: string, c: string)
    ensures a == b || StrLess(a, b) || StrLess(b, a)
    ensures StrLess(a, b) ==> a != b && !StrLess(b, a)
    ensures StrLess(a, b) && StrLess(b, c) ==> StrLess(a, c)
  {
    StrTotal(a, b);
    if StrLess(a, b) {
      StrAsymmetric(a, b);
      if StrLess(b, c) { StrTransitive(a, b, c); }
    }
  }

  predicate Ascending(s: seq<Key>) {
    forall i, j | 0 <= i < j < |s| :: KeyLess(s[i], s[j])
  }

  function Elements(s: seq<Key>): set<Key> {
    set k | k in s
  }

  function Insert(s: seq<Key>, k: Key): (r: seq<Key>)
    requires Ascending(s) && k !in s
    ensures Ascending(r) && Elements(r) == Elements(s) + {k} && |r| == |s| + 1
  {
    if s == [] then [k]
    else if KeyLess(k, s[0]) then
      assert forall i | 0 <= i < |s| :: KeyLess(k, s[i]) by {
        forall i | 0 <= i < |s| ensures KeyLess(k, s[i]) { KeyOrder(k, s[0], s[i]); }
      }
      [k] + s
    else
      var t := Insert(s[1..], k);
      assert s == [s[0]] + s[1..];
      assert forall i | 0 <= i < |t| :: KeyLess(s[0], t[i]) by {
        forall i | 0 <= i < |t| ensures KeyLess(s[0], t[i]) {
          KeyOrder(s[0], k, k);
          assert t[i] in Elements(t);
        }
      }
      [s[0]] + t
  }

  function Sort(s: seq<Key>): (r: seq<Key>)
    requires Distinct(s)
    ensures Ascending(r) && Elements(r) == Elements(s)
  {
    if s == [] then []
    else
      var r := Sort(s[1..]);
      assert s == [s[0]] + s[1..];
      assert s[0] !in Elements(s[1..]);
      Insert(r, s[0])
  }

  ghost function AscendingOf(ks: set<Key>): (r: seq<Key>)
    ensures Ascending(r) && Elements(r) == ks
  {
    if ks == {} then []
    else
      var k :| k in ks;
      var r := AscendingOf(ks - {k});
      assert k !in Elements(r);
      Insert(r, k)
  }

  /** Two ascending sequences over the same keys are the same sequence. */
  lemma {:induction false} AscendingUnique(s: seq<Key>, t: seq<Key>)
    requires Ascending(s) && Ascending(t) && Elements(s) == Elements(t)
    ensures s == t
    decreases |s|
  {
    FirstIsLeast(s);
    FirstIsLeast(t);
    if s != [] {
      KeyOrder(s[0], t[0], s[0]);
      RestElements(s);
      RestElements(t);
      AscendingUnique(s[1..], t[1..]);
      assert s == [s[0]] + s[1..] && t == [t[0]] + t[1..];
    }
  }

  lemma FirstIsLeast(s: seq<Key>)
    requires Ascending(s)
    ensures s != [] ==> s[0] in Elements(s) && forall k | k in Elements(s) :: k == s[0] || KeyLess(s[0], k)
  {
  }

  lemma RestElements(s: seq<Key>)
    requires Ascending(s) && s != []
    ensures Elements(s[1..]) == Elements(s) - {s[0]}
  {
    assert s == [s[0]] + s[1..];
    forall i | 1 <= i < |s| ensures s[i] != s[0] { KeyOrder(s[0], s[i], s[0]); }
  }

  // ---- bucket hashes ----

  function Fold(sha: Sha, idx: Index, ks: seq<Key>): seq<Byte>
    requires forall k | k in ks :: k in idx
  {
    if ks == [] then [] else EntryDigest(sha, ks[0], idx[ks[0]]) + Fold(sha, idx, ks[1..])
  }

  function BucketKeys(sha: Sha, idx: Index, n: nat, b: nat): set<Key>
    requires n > 0
  {
    set k | k in idx && BucketOf(sha, k, n) == b
  }

  /** The part of the index that falls into bucket `b`. */
  function Restrict(sha: Sha, idx: Index, n: nat, b: nat): Index
    requires n > 0
  {
    map k | k in idx && BucketOf(sha, k, n) == b :: idx[k]
  }

  function UsedBuckets(sha: Sha, idx: Index, n: nat): set<nat>
    requires n > 0
  {
    set k | k in idx :: BucketOf(sha, k, n)
  }

  /** The byte string one bucket's hash is taken of. */
  ghost function Blob(sha: Sha, idx: Index, n: nat, b: nat): seq<Byte>
    requires n > 0
  {
    var ks := AscendingOf(BucketKeys(sha, idx, n, b));
    assert forall k | k in ks :: k in Elements(ks);
    Fold(sha, idx, ks)
  }

  ghost function BucketHashes(sha: Sha, idx: Index, n: nat): map<nat, Digest>
    requires n > 0
  {
    map b | b in UsedBuckets(sha, idx, n) :: sha.bytes(Blob(sha, idx, n, b))
  }

  lemma {:induction false} FoldAppend(sha: Sha, idx: Index, ks: seq<Key>, k: Key)
    requires (forall l | l in ks :: l in idx) && k in idx
    ensures Fold(sha, idx, ks + [k]) == Fold(sha, idx, ks) + EntryDigest(sha, k, idx[k])
    decreases |ks|
  {
    if ks == [] {
      assert ks + [k] == [k];
      assert [k][1..] == [];
    } else {
      assert (ks + [k])[1..] == ks[1..] + [k];
      FoldAppend(sha, idx, ks[1..], k);
    }
  }

  predicate Distinct(s: seq<Key>) {
    forall i, j | 0 <= i < j < |s| :: s[i] != s[j]
  }

  /** Every non-empty bucket of `done` has exactly its keys listed, each once. */
  ghost predicate Grouped(sha: Sha, done: Index, n: nat, buckets: map<nat, seq<Key>>)
    requires n > 0
  {
    && buckets.Keys == UsedBuckets(sha, done, n)
    && forall b | b in buckets :: Distinct(buckets[b]) && Elements(buckets[b]) == BucketKeys(sha, done, n, b)
  }

  method GroupByBucket(sha: Sha, index: Index, n: nat) returns (buckets: map<nat, seq<Key>>)
    requires n > 0
    ensures Grouped(sha, index, n, buckets)
  {
    buckets := map[];
    var todo := index.Keys;
    ghost var done: Index := map[];
    while todo != {}
      invariant todo <= index.Keys && done == index - todo
      invariant Grouped(sha, done, n, buckets)
      decreases |todo|
    {
      var key :| key in todo;
      var b := BucketOf(sha, key, n);
      var entries := if b in buckets then buckets[b] else [];
      GroupStep(sha, done, n, key, index[key], buckets);
      buckets := buckets[b := entries + [key]];
      todo := todo - {key};
      done := done[key := index[key]];
    }
    assert done == index;
  }

  lemma GroupStep(sha: Sha, done: Index, n: nat, key: Key, v: Version, buckets: map<nat, seq<Key>>)
    requires n > 0 && key !in done && Grouped(sha, done, n, buckets)
    ensures var b := BucketOf(sha, key, n);
            var entries := if b in buckets then buckets[b] else [];
            Grouped(sha, done[key := v], n, buckets[b := entries + [key]])
  {
    var b, next := BucketOf(sha, key, n), done[key := v];
    var entries := if b in buckets then buckets[b] else [];
    assert Elements(entries) == BucketKeys(sha, done, n, b) by {
      if b !in buckets { assert forall k | k in done :: BucketOf(sha, k, n) in UsedBuckets(sha, done, n); }
    }
    assert key !in Elements(entries);
    assert Elements(entries + [key]) == Elements(entries) + {key};
    assert forall c | c != b :: BucketKeys(sha, next, n, c) == BucketKeys(sha, done, n, c);
    forall c ensures c in UsedBuckets(sha, next, n) <==> c in UsedBuckets(sha, done, n) + {b} {
      if c in UsedBuckets(sha, done, n) {
        var k :| k in done && BucketOf(sha, k, n) == c;
        assert k in next;
      }
      assert key in next;
    }
  }

  method FoldDigests(sha: Sha, index: Index, entries: seq<Key>) returns (h: seq<Byte>)
    requires forall k | k in entries :: k in index
    ensures h == Fold(sha, index, entries)
  {
    h := [];
    for i := 0 to |entries|
      invariant h == Fold(sha, index, entries[..i])
    {
      FoldAppend(sha, index, entries[..i], entries[i]);
      assert entries[..i + 1] == entries[..i] + [entries[i]];
      h := h + EntryDigest(sha, entries[i], index[entries[i]]);
    }
    assert entries[..|entries|] == entries;
  }

  /** Grouping the index by bucket, sorting each group and folding its entry digests computes
      exactly the bucket hashes, in whatever order the index is visited. */
  method ComputeBucketHashes(sha: Sha, index: Index, n: nat) returns (out: map<nat, Digest>)
    requires n > 0
    ensures out == BucketHashes(sha, index, n)
  {
    var buckets := GroupByBucket(sha, index, n);
    out := map[];
    var rest := buckets.Keys;
    while rest != {}
      invariant rest <= buckets.Keys
      invariant out.Keys == buckets.Keys - rest
      invariant forall b | b in out :: out[b] == sha.bytes(Blob(sha, index, n, b))
      decreases |rest|
    {
      var b :| b in rest;
      var entries := Sort(buckets[b]);
      assert forall k | k in entries :: k in Elements(entries);
      AscendingUnique(entries, AscendingOf(BucketKeys(sha, index, n, b)));
      var h := FoldDigests(sha, index, entries);
      out := out[b := sha.bytes(h)];
      rest := rest - {b};
    }
  }

  /** Buckets present on either side whose hashes differ. */
  function DifferingBuckets(local: map<nat, Digest>, remote: map<nat, Digest>): set<nat> {
    set b | b in local.Keys + remote.Keys && Get(local, b) != Get(remote, b)
  }

  // ---- exactness ----

  /** Two entries that really were hashed have different texts and one digest. */
  ghost predicate EntryCollision(sha: Sha, x: Index, y: Index) {
    exists k, l | k in x && l in y ::
      EntryText(k, x[k]) != EntryText(l, y[l]) && EntryDigest(sha, k, x[k]) == EntryDigest(sha, l, y[l])
  }

  /** Two bucket contents that really were hashed differ and have one digest. */
  ghost predicate BlobCollision(sha: Sha, x: Index, n: nat, y: Index, m: nat)
    requires n > 0 && m > 0
  {
    exists b | b in UsedBuckets(sha, x, n) && b in UsedBuckets(sha, y, m) ::
      Blob(sha, x, n, b) != Blob(sha, y, m, b) && sha.bytes(Blob(sha, x, n, b)) == sha.bytes(Blob(sha, y, m, b))
  }

  ghost predicate Collision(sha: Sha, x: Index, n: nat, y: Index, m: nat)
    requires n > 0 && m > 0
  {
    EntryCollision(sha, x, y) || BlobCollision(sha, x, n, y, m)
  }

  lemma {:induction false} FoldLength(sha: Sha, idx: Index, ks: seq<Key>)
    requires forall k | k in ks :: k in idx
    ensures |Fold(sha, idx, ks)| == 32 * |ks|
    decreases |ks|
  {
    if ks != [] {
      FoldLength(sha, idx, ks[1..]);
    }
  }

  lemma {:induction false} FoldInjective(sha: Sha, x: Index, ks: seq<Key>, y: Index, ls: seq<Key>)
    requires (forall k | k in ks :: k in x) && (forall l | l in ls :: l in y)
    requires CleanIndex(x) && CleanIndex(y) && !EntryCollision(sha, x, y)
    requires Fold(sha, x, ks) == Fold(sha, y, ls)
    ensures ks == ls && forall k | k in ks :: x[k] == y[k]
    decreases |ks|
  {
    FoldLength(sha, x, ks);
    FoldLength(sha, y, ls);
    if ks != [] {
      var k, l := ks[0], ls[0];
      var f, g := Fold(sha, x, ks), Fold(sha, y, ls);
      assert f[..32] == EntryDigest(sha, k, x[k]) && g[..32] == EntryDigest(sha, l, y[l]);
      assert f[32..] == Fold(sha, x, ks[1..]) && g[32..] == Fold(sha, y, ls[1..]);
      EntryTextInjective(k, x[k], l, y[l]);
      FoldInjective(sha, x, ks[1..], y, ls[1..]);
      assert ks == [k] + ks[1..] && ls == [l] + ls[1..];
    }
  }

  lemma UsedExact(sha: Sha, idx: Index, n: nat, b: nat)
    requires n > 0
    ensures b in UsedBuckets(sha, idx, n) <==> Restrict(sha, idx, n, b) != map[]
    ensures Restrict(sha, idx, n, b).Keys == BucketKeys(sha, idx, n, b)
  {
    if b in UsedBuckets(sha, idx, n) {
      var k :| k in idx && BucketOf(sha, k, n) == b;
      assert k in Restrict(sha, idx, n, b);
    }
    if k :| k in Restrict(sha, idx, n, b) {
      assert BucketOf(sha, k, n) == b;
    }
  }

  lemma EqualBlobs(sha: Sha, x: Index, n: nat, y: Index, m: nat, b: nat)
    requires n > 0 && m > 0 && Restrict(sha, x, n, b) == Restrict(sha, y, m, b)
    ensures Blob(sha, x, n, b) == Blob(sha, y, m, b)
  {
    var r := Restrict(sha, x, n, b);
    UsedExact(sha, x, n, b);
    UsedExact(sha, y, m, b);
    var ks := AscendingOf(r.Keys);
    assert forall k | k in ks :: k in Elements(ks);
    assert forall k | k in ks :: x[k] == r[k] && y[k] == Restrict(sha, y, m, b)[k];
    FoldCongruent(sha, x, y, ks);
  }

  lemma BlobInjective(sha: Sha, x: Index, n: nat, y: Index, m: nat, b: nat)
    requires n > 0 && m > 0 && CleanIndex(x) && CleanIndex(y) && !EntryCollision(sha, x, y)
    requires Blob(sha, x, n, b) == Blob(sha, y, m, b)
    ensures Restrict(sha, x, n, b) == Restrict(sha, y, m, b)
  {
    var xs, ys := BucketKeys(sha, x, n, b), BucketKeys(sha, y, m, b);
    ListedIndexed(sha, x, n, b);
    ListedIndexed(sha, y, m, b);
    FoldInjective(sha, x, AscendingOf(xs), y, AscendingOf(ys));
    assert xs == Elements(AscendingOf(xs)) == ys;
    assert forall k | k in xs :: k in AscendingOf(xs);
    RestrictSame(sha, x, n, y, m, b);
  }

  lemma ListedIndexed(sha: Sha, idx: Index, n: nat, b: nat)
    requires n > 0
    ensures forall k | k in AscendingOf(BucketKeys(sha, idx, n, b)) :: k in idx
  {
    var ks := AscendingOf(BucketKeys(sha, idx, n, b));
    assert forall k | k in ks :: k in Elements(ks);
  }

  lemma RestrictSame(sha: Sha, x: Index, n: nat, y: Index, m: nat, b: nat)
    requires n > 0 && m > 0 && BucketKeys(sha, x, n, b) == BucketKeys(sha, y, m, b)
    requires forall k | k in BucketKeys(sha, x, n, b) :: x[k] == y[k]
    ensures Restrict(sha, x, n, b) == Restrict(sha, y, m, b)
  {
    UsedExact(sha, x, n, b);
    UsedExact(sha, y, m, b);
  }

  /** Digest exactness: two indexes carry the same hash for a bucket iff their restrictions to
      that bucket are equal, or two hashed inputs collide. The bucket counts may differ. */
  lemma BucketHashExact(sha: Sha, x: Index, n: nat, y: Index, m: nat, b: nat)
    requires n > 0 && m > 0 && CleanIndex(x) && CleanIndex(y)
    ensures Restrict(sha, x, n, b) == Restrict(sha, y, m, b) ==>
              Get(BucketHashes(sha, x, n), b) == Get(BucketHashes(sha, y, m), b)
    ensures Get(BucketHashes(sha, x, n), b) == Get(BucketHashes(sha, y, m), b) ==>
              Restrict(sha, x, n, b) == Restrict(sha, y, m, b) || Collision(sha, x, n, y, m)
  {
    UsedExact(sha, x, n, b);
    UsedExact(sha, y, m, b);
    if Restrict(sha, x, n, b) == Restrict(sha, y, m, b) {
      EqualBlobs(sha, x, n, y, m, b);
    } else if Blob(sha, x, n, b) == Blob(sha, y, m, b) && !EntryCollision(sha, x, y) {
      BlobInjective(sha, x, n, y, m, b);
    }
  }

  lemma {:induction false} FoldCongruent(sha: Sha, x: Index, y: Index, ks: seq<Key>)
    requires forall k | k in ks :: k in x && k in y && x[k] == y[k]
    ensures Fold(sha, x, ks) == Fold(sha, y, ks)
    decreases |ks|
  {
    if ks != [] {
      FoldCongruent(sha, x, y, ks[1..]);
    }
  }
}
