/** What a peer may learn from us: answers to `merkle`, `digest` and `pull`, told by what the node holds. */
module Answers {
  import opened Envelope
  import opened Merkle
  import opened Node
  import opened Exchange

  /** The datasets a caller may see: those of its session, or without one those we host; of these, when it
      names some, only the ones it names. */
  predicate MaySee(n: Node, from: NodeId, requested: set<string>, dataset: string) {
    && (if from in n.sessions then dataset in n.sessions[from].namespaces else dataset in n.datasets)
    && (requested == {} || dataset in requested)
  }

  /** A record the node can answer with: of its own, live or deleted, or replicated. */
  predicate Has(n: Node, k: Key) {
    var lk := LocalKey(k.dataset, k.service);
    if k.origin == n.id then lk in n.tombstones || (lk in n.localVersions && lk in n.registry) else k in n.foreign
  }

  function VersionOf(n: Node, k: Key): Version
    requires Has(n, k)
  {
    var lk := LocalKey(k.dataset, k.service);
    if k.origin != n.id then n.foreign[k].version
    else if lk in n.tombstones then n.tombstones[lk].version
    else n.localVersions[lk]
  }

  lemma HasIsBuildable(n: Node, k: Key)
    requires OverlayOk(n)
    ensures Has(n, k) <==> BuildFor(n, k).Some?
    ensures Has(n, k) ==> BuildFor(n, k).value.key == k && BuildFor(n, k).value.version == VersionOf(n, k)
  {
  }

  /** The bucket hashes are taken over exactly the records the caller may see, and a caller that may see no
      dataset sees nothing. */
  lemma ShownExactly(n: Node, from: NodeId, requested: set<string>, k: Key)
    requires OverlayOk(n)
    ensures k in TheirView(n, from, requested) <==> MaySee(n, from, requested, k.dataset) && Has(n, k)
    ensures k in TheirView(n, from, requested) ==> TheirView(n, from, requested)[k] == VersionOf(n, k)
  {
    VisibleEntry(n, Allowed(n, from, requested), k);
    HasIsBuildable(n, k);
  }

  /** A digest answers exactly the rows of the asked buckets among them. */
  lemma RowsExactly(sha: Sha, n: Node, from: NodeId, requested: set<string>, m: nat, buckets: set<nat>, k: Key)
    requires OverlayOk(n) && m > 0
    ensures var rows := RowsIn(sha, TheirView(n, from, requested), m, buckets);
            && (k in rows <==>
                  MaySee(n, from, requested, k.dataset) && Has(n, k) && BucketOf(sha, k, m) in buckets)
            && (k in rows ==> rows[k] == VersionOf(n, k))
  {
    ShownExactly(n, from, requested, k);
  }

  /** A pull answers exactly the asked records in datasets the caller may see, each as the node holds it: a
      replica unchanged, a record of its own as registered, or as a tombstone. */
  lemma PulledExactly(n: Node, from: NodeId, keys: set<Key>, k: Key)
    requires OverlayOk(n)
    ensures var out := Served(n, from, keys);
            && (k in out <==> k in keys && MaySee(n, from, {}, k.dataset) && Has(n, k))
            && (k in out ==> out[k].key == k && out[k].version == VersionOf(n, k))
            && (k in out && k.origin != n.id ==> out[k] == n.foreign[k])
            && (k in out && k.origin == n.id && !out[k].tombstone ==>
                  LocalOf(k) in n.registry && out[k].payload == Some(n.registry[LocalOf(k)]))
            && (k in out && k.origin == n.id ==>
                  (out[k].tombstone <==> LocalOf(k) in n.tombstones) && (out[k].tombstone ==> out[k].payload == None))
  {
    HasIsBuildable(n, k);
  }
}
