/** Sync envelopes, their last-writer-wins versions and the overlay those versions drive. */
module Envelope {
  import opened Order

  datatype Option<+T> = None | Some(value: T)

  type NodeId = string

  /** `(updated_at_ms, node_id)`. */
  datatype Version = Version(ms: int, node: NodeId)

  /** Global identity of a record. */
  datatype Key = Key(dataset: string, origin: NodeId, service: string)

  datatype Envelope = Envelope(key: Key, version: Version, tombstone: bool, payload: Option<string>)

  type Overlay = map<Key, Envelope>

  function Get<K, V>(m: map<K, V>, k: K): Option<V> {
    if k in m then Some(m[k]) else None
  }

  /** Strict lexicographic order: timestamp first, node id as the tiebreak. */
  predicate After(a: Version, b: Version) {
    a.ms > b.ms || (a.ms == b.ms && StrLess(b.node, a.node))
  }

  /** `version_newer`: an unseen record always loses, an equal version never wins. */
  predicate Newer(a: Version, b: Option<Version>) {
    b.None? || After(a, b.value)
  }

  function VersionAt(o: Overlay, k: Key): Option<Version> {
    if k in o then Some(o[k].version) else None
  }

  /** A strict total order: exactly one of `==`, After(a, b), After(b, a) holds, and After is
      transitive. */
  lemma VersionOrder(a: Version, b: Version, c: Version)
    ensures (a == b) || After(a, b) || After(b, a)
    ensures After(a, b) ==> a != b && !After(b, a)
    ensures After(a, b) && After(b, c) ==> After(a, c)
  {
    StrTotal(a.node, b.node);
    StrIrreflexive(a.node);
    if StrLess(a.node, b.node) { StrAsymmetric(a.node, b.node); }
    if StrLess(b.node, a.node) { StrAsymmetric(b.node, a.node); }
    if StrLess(c.node, b.node) && StrLess(b.node, a.node) { StrTransitive(c.node, b.node, a.node); }
  }

  /** One last-writer-wins write into an overlay. */
  function Write(o: Overlay, env: Envelope): Overlay {
    if Newer(env.version, VersionAt(o, env.key)) then o[env.key := env] else o
  }

  function WriteAll(o: Overlay, envs: seq<Envelope>): Overlay
    decreases |envs|
  {
    if envs == [] then o else WriteAll(Write(o, envs[0]), envs[1..])
  }

  /** `e` is what key `k` must hold once `o` and then the deliveries `envs` were offered: an
      offered envelope of that key that no other offered one out-versions. */
  predicate IsMaximum(o: Overlay, envs: seq<Envelope>, k: Key, e: Envelope) {
    && ((k in o && e == o[k]) || e in envs)
    && e.key == k
    && (k in o ==> !After(o[k].version, e.version))
    && (forall f | f in envs && f.key == k :: !After(f.version, e.version))
  }

  predicate Keyed(o: Overlay) {
    forall k | k in o :: o[k].key == k
  }

  /** After any finite delivery sequence each key holds the maximum of what was offered for it,
      and a key nobody offered stays absent. */
  lemma {:induction false} WriteAllIsMaximum(o: Overlay, envs: seq<Envelope>, k: Key)
    requires Keyed(o)
    ensures var r := WriteAll(o, envs);
            && (k in r <==> k in o || exists e :: e in envs && e.key == k)
            && (k in r ==> IsMaximum(o, envs, k, r[k]))
    decreases |envs|
  {
    if envs != [] {
      var o1 := Write(o, envs[0]);
      var rest := envs[1..];
      assert envs == [envs[0]] + rest;
      WriteAllIsMaximum(o1, rest, k);
      var r := WriteAll(o, envs);
      assert envs[0].key == k ==> envs[0] in envs;
      if k in r {
        VersionOrder(envs[0].version, if k in o then o[k].version else r[k].version, r[k].version);
        VersionOrder(if k in o then o[k].version else r[k].version, envs[0].version, r[k].version);
        VersionOrder(r[k].version, r[k].version, r[k].version);
      }
    } else if k in o {
      VersionOrder(o[k].version, o[k].version, o[k].version);
    }
  }

  /** A version determines its envelope, per key: what an origin's strictly increasing mints
      guarantee. */
  predicate Functional(s: set<Envelope>) {
    forall e, f | e in s && f in s && e.key == f.key && e.version == f.version :: e == f
  }

  function AsSet(envs: seq<Envelope>): (s: set<Envelope>)
    ensures forall e :: e in s <==> e in envs
  {
    set e | e in envs
  }

  function Offered(o: Overlay, envs: seq<Envelope>): set<Envelope> {
    o.Values + AsSet(envs)
  }

  /** Duplication, reordering and repetition of deliveries do not matter: the overlay depends
      only on the set of envelopes that were offered. */
  lemma DeliveryOrderBlind(o: Overlay, a: seq<Envelope>, b: seq<Envelope>)
    requires Keyed(o)
    requires AsSet(a) == AsSet(b)
    requires Functional(Offered(o, a))
    ensures WriteAll(o, a) == WriteAll(o, b)
  {
    var ra, rb := WriteAll(o, a), WriteAll(o, b);
    assert forall e :: e in a <==> e in AsSet(b);
    forall k
      ensures k in ra <==> k in rb
      ensures k in ra && k in rb ==> ra[k] == rb[k]
    {
      WriteAllIsMaximum(o, a, k);
      WriteAllIsMaximum(o, b, k);
      if k in ra && k in rb {
        VersionOrder(ra[k].version, rb[k].version, ra[k].version);
        assert ra[k] in Offered(o, a) && rb[k] in Offered(o, a);
      }
    }
  }
}
