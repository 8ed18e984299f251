# Verified model of the A2X registry cluster and its signing formats

Four parts of the repository are modelled here, each as state, operations and the properties the
design relies on:

* **Cluster replication** (`AgentRegistry/a2x_registry/cluster/`). Every registry node owns its records,
  keeps a last-writer-wins overlay of everybody else's, repairs it with Merkle-bucketed
  anti-entropy, evicts silent peers after a HOLD timeout and refuses to re-learn them for a cooldown.
  `ClusterStore.dfy` and `MembershipStore.dfy` are the objects with their fields updated in place;
  `Node.dfy`, `Exchange.dfy` and `Membership.dfy` give each method its meaning; `Protocol.dfy` is the
  cluster as a step system with any number of nodes, a network that delays, duplicates, reorders and
  loses, arbitrary wall clocks and a non-decreasing monotonic clock, and `Refinement.dfy` ties the
  objects' operations to its steps. `Answers.dfy` says what a peer may learn. Whole-run theorems are in
  `Protocol.dfy`, `Provenance.dfy`, `Minting.dfy`, `Resurrection.dfy`, `TombstoneGc.dfy` and
  `Convergence.dfy`; the files ending in `Witness`, on the
  stage of `SmallCluster.dfy`, hold the runs from a cluster at rest that show which conditions the
  theorems cannot do without.
* **Canonical JSON for signatures** (`A4P/rust-sdk/src/canonical.rs`): a printer that appends to a buffer,
  a reader for the grammar of RFC 8259 sections 4 to 7, and the theorem that the text identifies the
  value; `CanonicalForm.dfy` singles out the spelling among all the reader accepts. `MandatePayload.dfy` puts the two signed payloads on top of it.
* **The lease table** (`AgentRegistry/a2x_registry/common/lease.py`), proved against its event history.
* **The credential store** (`AgentRegistry/a2x_registry/auth/store.py`), its by-hash index proved against a
  scan.

`dafny verify dfyconfig.toml` checks everything.

## Main results

* One bucketed reconcile is a whole-index exchange, for any two bucket counts, or two hashed inputs
  collide: `Exchange.ReconcileExact`, `ClusterStore.ClusterStore.Reconcile`, `Merkle.BucketHashExact`.
* Every replica was built by its origin, over all runs, with the payload registered there when its
  version was minted: `Provenance.Authority`.
* A silent node's records disappear for good, exactly when:
  `ResurrectionWitness.NoResurrectionIffEnough`.
* Garbage collection never revives a delete, exactly when: `TombstoneGcWitness.NeverRevivedIffEnough`;
  and from when on a deleted record is gone everywhere: `TombstoneGcWitness.GoneByIffDone`.
* Quiescent convergence, exactly when: `Convergence.ConvergesIffBacked`,
  `Convergence.FurtherReconcilesAreIdle`, with reconciles in one instant or call by call
  (`Convergence.PairLearns`), as long as no two hashed inputs collide.
* A reconcile or a connect in one instant is a run of single calls and messages, so what holds over all
  runs holds with anything between the calls: `Refinement.ReconcileIsRun`, `Refinement.ConnectIsRun`.
* A mint stays the largest, exactly when: `Minting.MintLastsIffSaved`, `Minting.MintsIncrease`,
  `Minting.ServiceMintExceedsAllServed`.
* Deliveries in any order: `Exchange.DeliveriesOrderBlind`.
* The membership plane: `Membership.MergeOrderBlind`, `Membership.DeltaIsFull`,
  `Membership.RemovalDominates`; a graceful leave dominates, exactly when:
  `Membership.LeavingDominatesIffOurs`.
* Canonical JSON: `JsonSame.TextIdentifiesValue`, `JsonParser.PrintThenParse`,
  `NumberValue.ReprIsExact`, `CanonicalForm.FloatTextIsTheOne`, `MandatePayload.UserPayloadsIdentify`,
  `MandatePayload.DomainsSeparate`.
* Being evicted ourselves: `Membership.MergeMeans`, `Membership.EvictedStaysOutside`.
* Leases: `Lease.TableIsHistory`, `Lease.LeaseIsHistory`, `Lease.PunctualHolderIsSafe`,
  `Lease.OnlyTheLastSweepCounts`.
* Credentials: `Auth.IndexAgreesWithScan`, `Auth.FreshTokenIffAgreement`, `Auth.DisablingLocksOut`,
  `Auth.RevokedForever`.

The other rows of the table below are the operations themselves and the results these rest on.

## Where the code and its documentation part

* **Retention and resurrection.** `config.py:49-56` says that hold + keepalive gives every peer time to
  evict before a cooldown ends. With HOLD ticks and contacts at most D apart and envelopes at most
  d in flight, the silent node stays gone in every run exactly when hold + keepalive >= 2 D + d, if
  hold >= D, or keepalive > D + d, if hold < D, and live nodes restart only later than
  hold + D + d after the silence began (`ResurrectionWitness.NoResurrectionIffEnough`). A restart
  forgets the cooldown, so an earlier one lets a record in that is still on its way.
* **Retention and deletions.** `store.py:659-661` says that the retention guarantees that forgetting a
  deletion cannot cause a resurrection. A node is protected once it has merged the tombstone or
  evicted the origin. It lapses when it restarts, and when a session with the origin is opened before
  it holds the tombstone: that lifts the cooldown (`store.py:346`, `store.py:592`), and until the
  reconcile that follows it takes an old record that is on its way
  (`TombstoneGcWitness.OpenBeforeReconcile`). Let everybody be protected after a time L, lapses
  before a time E be made good within G, other lapses come after a time M, and envelopes, those
  of a call under way included, travel for at most d. Then a protected node never takes the deleted record again exactly when E + G + d (or just L,
  if G and d are 0) is at most hold + keepalive and at most M, and wall clocks are not so far ahead
  that a tombstone can be collected before that time
  (`TombstoneGcWitness.NeverRevivedIffEnough`). The record is gone everywhere from E + G (or L) on, and
  no earlier (`TombstoneGcWitness.GoneByIffDone`). When nodes lapse only before L or after L + d, E is L
  and G is 0.
* **Convergence.** After every two nodes have reconciled, without a collision and whatever comes between
  the calls, all indexes equal the union of the origins' own if and
  only if every replica was backed by its origin when the calm began
  (`Convergence.ConvergesIffBacked`). A replica whose origin has already forgotten its tombstone
  is what breaks it, and a cluster at rest can get there
  (`ConvergenceWitness.OrphansPreventAgreement`).
* **Bucket counts.** `config.py:43-47` claims that a mismatch is still correct. It is
  (`Exchange.SelectionExact`), for any two positive bucket counts.
* **Graceful leaves.** `membership.py:407-426` tombstones a leaver in the cluster it has on record, and
  `membership.py:537-540` saves only records of our own cluster. So a leaver on record in another
  cluster stays gone until we restart (`Membership.LeavingDominatesUntilRestart`); after a restart an
  old record of it can bring it back (`Membership.RestartForgetsLeaver`). All others stay gone
  (`Membership.LeavingDominatesIffOurs`).
* **Exponents.** `canonical.rs:99-102` speaks of fixed notation for exponents between -4 and 16. As in
  Python, 16 itself is printed with an exponent (`CanonicalForm.ExponentIff`).
* **Membership mints.** A membership mint stays below all later mints of the node exactly when the node
  saved its state at or after it (`Minting.MintLastsIffSaved`). Every membership operation ends in a
  save; before it, a restart can bring the same version again.
* **Credential index.** The index agrees with a scan in every reachable state as long as a new token's
  hash is not the hash of a key in force; that condition is also necessary
  (`Auth.FreshTokenIffAgreement`).

## Conventions

SHA-256 is an arbitrary pair of functions to 32-byte digests, one on texts and one on byte strings.
Where the program needs collision freedom, the statement is "this holds, or two different inputs
among the ones hashed here have the same digest" (`Merkle.Collision`). Ids do not contain the
separator characters (`merkle.py:23`, `state.py:37-39`). Each remote call and each locked block is one
atomic step. The steps `Reconcile` and `Connect` are all calls of a reconcile or a connect with nothing
in between; with other steps in between, or broken off, they are steps `OpenSession`, `Hear`, `Send` and
`Deliver` of the two sides (`Refinement.OpeningIsRun`, `Refinement.PullIsRun`,
`Refinement.UpdatesAreRun`), and theorems over all runs cover both. A `Send` needs no session, because
a call under way is still answered when its session is gone; the runs that refute a property send
over sessions only (`Protocol.Orderly`). All nodes' monotonic clocks run at the same rate. The cluster
is open (no auth store on it).

## Model

| member | source | states |
|---|---|---|
| `Envelope.VersionOrder` | AgentRegistry/a2x_registry/cluster/envelope.py:48-58 | versions are totally ordered by (time, node id): exactly one of equal, newer, older, and newer is transitive |
| `Envelope.WriteAllIsMaximum` | AgentRegistry/a2x_registry/cluster/envelope.py:48-58 | after any delivery sequence each key holds an offered envelope that no other offered one beats, and no key appears from nowhere |
| `Envelope.DeliveryOrderBlind` | AgentRegistry/a2x_registry/cluster/envelope.py:48-58 | when a version determines its envelope, two delivery sequences with the same set of envelopes, in any order and with repetitions, leave the same overlay |
| `Exchange.DeliveriesOrderBlind` | AgentRegistry/a2x_registry/cluster/store.py:291-313 | the same for `apply_inbound` with its own-origin and suppression checks: the node after a list of deliveries depends only on the set delivered |
| `Merkle.EntryTextInjective` | AgentRegistry/a2x_registry/cluster/merkle.py:26-38 | for ids without the separator, equal hashed texts mean equal key and version |
| `Merkle.GroupByBucket` | AgentRegistry/a2x_registry/cluster/merkle.py:45-47 | the loop puts every key into exactly its bucket, once, and creates only non-empty buckets |
| `Merkle.ComputeBucketHashes` | AgentRegistry/a2x_registry/cluster/merkle.py:41-55 | the in-place grouping and hashing computes, per non-empty bucket, the digest of the sorted entries' digests |
| `Merkle.BucketHashExact` | AgentRegistry/a2x_registry/cluster/merkle.py:41-64 | two indexes have the same hash for a bucket if and only if their restrictions to it are equal, or a collision among the hashed inputs is at hand; bucket counts may differ |
| `Exchange.SelectionExact` | AgentRegistry/a2x_registry/cluster/config.py:43-47 | comparing only the rows of the differing buckets selects exactly the keys to pull and to push that comparing whole indexes selects, for any two bucket counts, or there is a collision |
| `Exchange.PullStage` | AgentRegistry/a2x_registry/cluster/store.py:625-633 | pulling only the winning rows stores exactly what pulling everything would store |
| `Exchange.PushStage` | AgentRegistry/a2x_registry/cluster/store.py:635-644 | pushing only the winning rows, built after the pull changed our overlay, stores at the peer exactly what pushing everything we had before would store |
| `Exchange.ListIsAbsorb` | AgentRegistry/a2x_registry/cluster/store.py:464-482 | applying a list one envelope at a time, in any order, stores what offering the whole set stores, and counts the keys that changed |
| `Exchange.ReconcileExact` | AgentRegistry/a2x_registry/cluster/store.py:597-648 | without a collision one bucketed reconcile is a whole-index exchange in both directions, counts included |
| `Exchange.SameViewsIdle` | AgentRegistry/a2x_registry/cluster/store.py:608-612 | two nodes that show each other equal indexes store nothing of what the other offers |
| `ClusterStore.ClusterStore.Load` | AgentRegistry/a2x_registry/cluster/state.py:100-124 | a restarted node has what was saved and empty overlay, sessions and cooldowns |
| `ClusterStore.ClusterStore.NextTimestamp` | AgentRegistry/a2x_registry/cluster/store.py:193-198 | the timestamp is the larger of wall clock and clock + 1, and becomes the clock |
| `ClusterStore.ClusterStore.NextVersionAfter` | AgentRegistry/a2x_registry/cluster/store.py:162-173 | the version is above the clock and above the given floor |
| `ClusterStore.ClusterStore.ObserveVersion` | AgentRegistry/a2x_registry/cluster/store.py:175-181 | the clock becomes the maximum of itself and the observed version |
| `ClusterStore.ClusterStore.EnsureLocalVersions` | AgentRegistry/a2x_registry/cluster/store.py:200-217 | afterwards every record is versioned; the state is that of stamping the unversioned records one by one; nothing changes when all had one |
| `Node.StampAllKeeps` | AgentRegistry/a2x_registry/cluster/store.py:200-217 | stamping keeps existing versions, and every new one is ours and above everything minted before; what is saved is the stamped state |
| `ClusterStore.ClusterStore.LocalIndexOf` | AgentRegistry/a2x_registry/cluster/store.py:226-248 | the loops build the index of live records and tombstones in scope, a tombstone shadowing a live version |
| `ClusterStore.ClusterStore.FullIndexOf` | AgentRegistry/a2x_registry/cluster/store.py:250-258 | own and replicated versions in scope |
| `Node.IndexEntry` | AgentRegistry/a2x_registry/cluster/store.py:250-287 | supporting: a node indexes exactly the keys in scope it can build an envelope for, at that envelope's version |
| `Node.VisibleEntry` | AgentRegistry/a2x_registry/cluster/store.py:395-413 | supporting: a peer is shown exactly the keys of its allowed datasets that the node can build an envelope for |
| `ClusterStore.ClusterStore.ApplyInbound` | AgentRegistry/a2x_registry/cluster/store.py:291-313 | an envelope is stored exactly when it is foreign, not suppressed and strictly newer; nothing else changes |
| `ClusterStore.ClusterStore.ApplyBatch` | AgentRegistry/a2x_registry/cluster/store.py:464-482 | the batch is applied in order and the number stored is returned |
| `ClusterStore.ClusterStore.HandleOpen` | AgentRegistry/a2x_registry/cluster/store.py:317-349 | the session is recorded with the union of offered and own datasets, and the caller's cooldown is lifted |
| `ClusterStore.ClusterStore.ServeMerkle` | AgentRegistry/a2x_registry/cluster/store.py:415-425 | answers the bucket hashes of what the caller may see and refreshes only its HOLD timer |
| `ClusterStore.ClusterStore.ServeDigest` | AgentRegistry/a2x_registry/cluster/store.py:395-413 | answers the visible rows of the asked buckets |
| `ClusterStore.ClusterStore.ServePull` | AgentRegistry/a2x_registry/cluster/store.py:427-440 | answers the envelopes of the asked keys in datasets the session covers |
| `ClusterStore.ClusterStore.ServeUpdates` | AgentRegistry/a2x_registry/cluster/store.py:464-482 | refreshes the caller's timer, applies the batch in order and counts what was stored |
| `Answers.ShownExactly` | AgentRegistry/a2x_registry/cluster/store.py:395-425 | the rows and hashes shown to a caller cover exactly the records of datasets its session, or without one our own hosting, allows, each at the version held; no dataset allowed means nothing shown |
| `Answers.RowsExactly` | AgentRegistry/a2x_registry/cluster/store.py:395-413 | a digest answers exactly the rows of the asked buckets among them |
| `Answers.PulledExactly` | AgentRegistry/a2x_registry/cluster/store.py:427-440 | a pull answers exactly the asked records in allowed datasets, replicas unchanged, own records with the registered payload or as tombstones |
| `ClusterStore.ClusterStore.DisconnectPeer` | AgentRegistry/a2x_registry/cluster/store.py:680-698 | the session, every record of that origin and nothing else goes; the cooldown ends at now + hold + keepalive |
| `ClusterStore.ClusterStore.CheckHoldNow` | AgentRegistry/a2x_registry/cluster/store.py:544-557 | the loop evicts exactly the peers silent for longer than the HOLD timeout |
| `ClusterStore.EvictByFields` | AgentRegistry/a2x_registry/cluster/store.py:680-698 | an eviction removes exactly the sessions with and the records of the evicted, starts exactly their cooldowns, and touches nothing else |
| `ClusterStore.ClusterStore.PruneSuppression` | AgentRegistry/a2x_registry/cluster/store.py:559-568 | exactly the expired cooldowns go |
| `ClusterStore.ClusterStore.GcTombstones` | AgentRegistry/a2x_registry/cluster/store.py:654-678 | exactly the tombstones older than the retention go, own and replicated, the own ones are saved, and the count is returned |
| `Node.RetentionIsMilliseconds` | AgentRegistry/a2x_registry/cluster/store.py:665 | the retention in milliseconds is a thousand times hold + keepalive, cut off to a whole number |
| `ClusterStore.ClusterStore.OnLocalMutation` | AgentRegistry/a2x_registry/cluster/store.py:759-782 | after a registration the record is registered with the given payload at a fresh version, no tombstone is left, and the envelope broadcast carries that payload and version; after a deletion the record is gone and the envelope is a tombstone without payload; all other records are untouched and the state is saved |
| `ClusterStore.ClusterStore.Rounds` | AgentRegistry/a2x_registry/cluster/store.py:604-644 | the calls of one reconcile, wherever they fail: at most the completed pull has happened |
| `ClusterStore.ClusterStore.ReconcileStamped` | AgentRegistry/a2x_registry/cluster/store.py:597-648 | when all calls get through both overlays equal a whole-index exchange and the counts are the records that changed, or there is a collision; sides that agree finish after one call with 0 and 0 |
| `ClusterStore.ClusterStore.Reconcile` | AgentRegistry/a2x_registry/cluster/store.py:597-648 | the same for stores with records that have no version yet: both sides stamp theirs first |
| `ClusterStore.ClusterStore.ConnectPeer` | AgentRegistry/a2x_registry/cluster/store.py:572-595 | a failed OPEN changes nothing; otherwise both sides hold the session, both cooldowns are lifted and the reconcile runs over the accepted datasets |
| `Refinement.ReconcileIsMeet` | AgentRegistry/a2x_registry/cluster/store.py:597-648 | what a completed reconcile of two stores leaves, without a collision, is the protocol's step |
| `Refinement.ConnectIsStep` | AgentRegistry/a2x_registry/cluster/store.py:572-595 | the same for connecting, when nothing comes between the OPEN and its reconcile |
| `Refinement.OpeningIsRun` | AgentRegistry/a2x_registry/cluster/store.py:342-346 | an OPEN is one step at the callee and one at the caller, with room for others between them and before the reconcile |
| `Refinement.PullIsRun` | AgentRegistry/a2x_registry/cluster/store.py:427-440 | answering a pull is hearing the caller and sending the answered envelopes one by one |
| `Refinement.UpdatesAreRun` | AgentRegistry/a2x_registry/cluster/store.py:464-482 | taking a push is hearing the caller and delivering its envelopes one by one |
| `Refinement.ReconcileIsRun` | AgentRegistry/a2x_registry/cluster/store.py:597-648 | whatever a reconcile in one instant does to the nodes, a run of single sends, heard calls and deliveries does |
| `Refinement.ConnectIsRun` | AgentRegistry/a2x_registry/cluster/store.py:572-595 | the same for a connect, with its two OPEN steps first |
| `Refinement.StampAllIsRun` | AgentRegistry/a2x_registry/cluster/store.py:200-217 | stamping several records is a run of single stamps |
| `Refinement.ApplyListIsRun` | AgentRegistry/a2x_registry/cluster/store.py:464-482 | applying a batch is a run of deliveries |
| `Protocol.StepInv` | AgentRegistry/a2x_registry/cluster/store.py:193-313 | every step of every node keeps the cluster invariant: replicas and messages were built by their origin, one version one envelope, no own origin in an overlay, saved clock above every own version |
| `Protocol.RunInv` | AgentRegistry/a2x_registry/cluster/store.py:193-313 | the invariant holds after every run |
| `Provenance.Authority` | AgentRegistry/a2x_registry/cluster/store.py:260-313 | whatever was duplicated, reordered or relayed, every replica is exactly what its origin served at some time of the run, never the holder's own record, and no newer than the origin's clock or current version; its payload is what the run's local changes, or the start, had registered there when a local change or a stamp minted that version, and a tombstone has none |
| `Provenance.ReplicasAgree` | AgentRegistry/a2x_registry/cluster/store.py:759-782 | two replicas of a record with the same version are equal on any two nodes |
| `Provenance.RegistryIsHistory` | AgentRegistry/a2x_registry/cluster/store.py:759-782 | over every run a registry holds, record by record, what its latest local change left, or what was there at the start |
| `Provenance.OriginServesRegistered` | AgentRegistry/a2x_registry/cluster/store.py:260-281 | the envelope an origin builds carries what is registered now, or is a tombstone without payload |
| `Provenance.LaterWins` | AgentRegistry/a2x_registry/cluster/envelope.py:48-58 | the later version wins, and at equal times the node id that comes later code point by code point |
| `Minting.MintsIncrease` | AgentRegistry/a2x_registry/cluster/store.py:155-198 | whatever the wall clock shows, later mints of a node, service or membership, are larger, provided the earlier one was saved before the first restart in between, if there is one |
| `Minting.MintLastsIffSaved` | AgentRegistry/a2x_registry/cluster/store.py:155-189 | a mint stays below every later mint of the node, in every continuation of the run with or without restarts, if and only if the node saved its state at or after the mint |
| `Minting.NeverAgainIffOnDisk` | AgentRegistry/a2x_registry/cluster/store.py:162-189 | in any reachable state all later mints exceed a version if and only if the saved clock has reached it |
| `Minting.UnsavedMintRepeats` | AgentRegistry/a2x_registry/cluster/store.py:155-173 | below the saved clock's reach, a restart and one membership mint bring the very same version again |
| `Minting.ServiceMintIsSaved` | AgentRegistry/a2x_registry/cluster/store.py:767-778 | a service mint is saved by the step that mints it |
| `Minting.ServiceMintExceedsAllServed` | AgentRegistry/a2x_registry/cluster/store.py:767-782 | a new service version exceeds every version of its own records the node could ever have shown to a peer, restarts or not |
| `Resurrection.RunShields` | AgentRegistry/a2x_registry/cluster/store.py:299-312 | in every quiet run, late restarts included, each live node either still waits for its HOLD tick or has evicted the silent origin, holds none of its records and is shielded as long as one can arrive |
| `Resurrection.NoResurrection` | AgentRegistry/a2x_registry/cluster/config.py:49-56 | past silence + hold + spacing no overlay holds a record of the silent node, under any interleaving, restarts included, when cooldown and restart times suffice |
| `ResurrectionWitness.OpeningIsReachable` | AgentRegistry/a2x_registry/cluster/store.py:572-595 | the cluster the two runs below start from is reached from one at rest |
| `ResurrectionWitness.NotAlwaysGone` | AgentRegistry/a2x_registry/cluster/sweepers.py:95-97 | when the cooldown is shorter, or a live node restarts earlier, a run with punctual ticks from a reachable cluster brings a record of the silent node back |
| `ResurrectionWitness.NoResurrectionIffEnough` | AgentRegistry/a2x_registry/cluster/config.py:49-56 | the exact condition on hold, keepalive, tick spacing, message delay and restarts |
| `TombstoneGc.StepSafe` | AgentRegistry/a2x_registry/cluster/store.py:587-698 | every step, restarts and OPENs on either side included, keeps: settled nodes that have not lapsed hold no version from before the deletion and cannot get one, the origin never goes back behind it, and old messages are too old |
| `TombstoneGc.NoRevival` | AgentRegistry/a2x_registry/cluster/store.py:654-678 | in every fair run no node that has settled, and has not lapsed since by a restart or an OPEN with the origin, ever holds a pre-delete version again, whatever comes between an OPEN and its reconcile; and after the time given by the last lapse nobody does |
| `TombstoneGcWitness.NotEnoughRevives` | AgentRegistry/a2x_registry/cluster/store.py:654-698 | when the cooldown ends, a fast clock collects, or lapses need no longer be made good before the horizon, a fair run of opens, sends, deliveries and evictions from a reachable deletion makes a settled node take the record |
| `TombstoneGcWitness.NeverRevivedIffEnough` | AgentRegistry/a2x_registry/cluster/config.py:49-56 | the exact condition on retention, time to settle, message delay, when lapses happen and how soon they are made good, and clock skew |
| `TombstoneGcWitness.OpenBeforeReconcile` | AgentRegistry/a2x_registry/cluster/store.py:590-594 | after everybody has settled, a fair run leads to an old envelope on its way to a node that opens a session with the origin, takes it, and is rid of it only by the reconcile that follows |
| `TombstoneGcWitness.GoneByIffDone` | AgentRegistry/a2x_registry/cluster/store.py:654-698 | under the exact condition the deleted record is gone from every node from a time on if and only if that time is not before the last lapse made good, or everybody's settling when lapses are made good at once and messages take no time |
| `Convergence.Converges` | AgentRegistry/a2x_registry/cluster/store.py:597-648 | after a calm run in which every two nodes reconcile, at one instant or call by call, the newest envelope of a record anywhere is on every node that can show the record |
| `Convergence.PairLearns` | AgentRegistry/a2x_registry/cluster/store.py:603-644 | when two nodes reconcile, with other steps between reading the own index, the bucket hashes, the rows, each pulled and each pushed envelope, either ends up with the newest envelope the other held before, unless two hashed inputs collide |
| `Exchange.PullCovers` | AgentRegistry/a2x_registry/cluster/store.py:608-628 | supporting: a key is pulled when the peer's hashes and its later rows show a version of it that beats ours, even though the hashes are older than the rows |
| `Exchange.PushCovers` | AgentRegistry/a2x_registry/cluster/store.py:608-637 | supporting: a key is pushed when our version beats what both the hashes and the later rows show |
| `Convergence.AllServeTheSame` | AgentRegistry/a2x_registry/cluster/store.py:250-287 | every node then serves the origin's own envelope for every record |
| `Convergence.ConvergesIffBacked` | AgentRegistry/a2x_registry/cluster/store.py:226-258 | all full indexes then equal the union of the origins' own indexes if and only if every replica was backed at the start |
| `Convergence.FurtherReconcilesAreIdle` | AgentRegistry/a2x_registry/cluster/store.py:608-612 | from then on no bucket differs, whatever the hash does, and nothing is pulled or pushed |
| `ConvergenceWitness.OrphansPreventAgreement` | AgentRegistry/a2x_registry/cluster/store.py:654-678 | a cluster at rest can reach a state with unbacked replicas, nothing in flight, from which a calm run in which all meet ends in disagreement |
| `Membership.MergeKeepsNewest` | AgentRegistry/a2x_registry/cluster/membership.py:157-183 | a merge keeps our own record and leaves for every other node the one we had or a strictly newer one that nothing offered beats |
| `Membership.MergeMeans` | AgentRegistry/a2x_registry/cluster/membership.py:157-183 | a merge leaves nothing exactly when the batch holds a newer removal of ourselves, and otherwise our record as it was and the newest record of every other node |
| `Membership.EvictedStaysOutside` | AgentRegistry/a2x_registry/cluster/membership.py:486-492 | after such a batch the roster and what is saved are empty, and in no run of merges, removals, collections and restarts is anybody a desired peer again |
| `Membership.MergeOrderBlind` | AgentRegistry/a2x_registry/cluster/membership.py:157-183 | batches with the same records, in any order, give the same version, cluster and removed flag per node, and the same decision that we were evicted |
| `Membership.AddressDependsOnOrder` | AgentRegistry/a2x_registry/cluster/membership.py:157-183 | the address is not covered: at equal versions the first one stays |
| `Membership.DeltaIsFull` | AgentRegistry/a2x_registry/cluster/membership.py:195-214 | pulling only ids with a newer version leaves the same roster and the same eviction decision as merging the peer's whole roster |
| `Membership.TombOutVersions` | AgentRegistry/a2x_registry/cluster/membership.py:306-336 | supporting: a removal tombstone beats the record it replaces, whoever minted it: every peer with the record takes it, and no peer with it takes the record back |
| `Membership.RemoveAllRemoves` | AgentRegistry/a2x_registry/cluster/membership.py:306-336 | after `set_remove` of a list every named node is a tombstone newer than what it had, is no desired peer, and nobody else changed |
| `Membership.RemoveAllIsRun` | AgentRegistry/a2x_registry/cluster/membership.py:306-336 | removing a list in one call is the run that removes its entries one by one, so what holds over runs holds for the call |
| `Membership.TombsAreTheRemovals` | AgentRegistry/a2x_registry/cluster/membership.py:306-336 | supporting: one tombstone per named entry, each a removal by us, the one left in the roster among them |
| `Membership.PushedTombTakesHold` | AgentRegistry/a2x_registry/cluster/membership.py:239-255 | wherever a pushed tombstone arrives and nothing newer is held, the removed node is no desired peer any more |
| `Membership.PushReachesTheDesired` | AgentRegistry/a2x_registry/cluster/membership.py:239-255 | in a cluster a change is pushed to exactly the desired peers, each at its address |
| `Membership.RestartRestores` | AgentRegistry/a2x_registry/cluster/membership.py:123-153 | a restart from what was persisted brings back our record, every live member of our cluster and every removal within its retention, unchanged, nobody else, and exactly the same desired peers |
| `Membership.RemovalDominates` | AgentRegistry/a2x_registry/cluster/membership.py:306-336 | no run of merges of records no newer than the tombstone, removals, leaves, restarts and collections within the retention makes the node a desired peer again |
| `Membership.LeavingDominates` | AgentRegistry/a2x_registry/cluster/membership.py:407-426 | the same for a graceful leave of a node of our cluster or of one we have no record of, or when we are in no cluster |
| `Membership.LeavingDominatesUntilRestart` | AgentRegistry/a2x_registry/cluster/membership.py:407-426 | the same for any leaver, whatever cluster its record names, as long as we do not restart |
| `Membership.RestartForgetsLeaver` | AgentRegistry/a2x_registry/cluster/membership.py:530-545 | a leaver on record in another cluster is a desired peer again after a restart and a record no newer than its tombstone |
| `Membership.LeavingDominatesIffOurs` | AgentRegistry/a2x_registry/cluster/membership.py:407-426 | a graceful leave dominates in all runs if and only if the leaver had no record, or one in our cluster, or we are in no cluster |
| `Membership.WantedKept` | AgentRegistry/a2x_registry/cluster/membership.py:461-482 | supporting: a connection pass never drops a session with a wanted peer |
| `Membership.OnePassIsEnough` | AgentRegistry/a2x_registry/cluster/membership.py:440-482 | supporting: when each dial reaches the node it names, one pass gives every desired peer a session and no removed or absent node one, and a second pass does nothing |
| `MembershipStore.MembershipStore.Restart` | AgentRegistry/a2x_registry/cluster/membership.py:123-153 | a restart rejoins the saved cluster, keeps unexpired removals and lifts the clock to the saved own version |
| `MembershipStore.MembershipStore.MergeBatch` | AgentRegistry/a2x_registry/cluster/membership.py:157-183 | a batch with a removal of ourselves newer than our record empties the roster, ends all sessions with its members and saves no cluster; any other leaves our own record and the newest record offered of everybody else; the result tells whether anything changed, and what changed is saved |
| `MembershipStore.MembershipStore.ReconcileWith` | AgentRegistry/a2x_registry/cluster/membership.py:195-214 | the delta pull ends with the roster a full merge of the peer's roster gives; standalone or unreachable changes nothing |
| `MembershipStore.MembershipStore.SetRemove` | AgentRegistry/a2x_registry/cluster/membership.py:306-336 | roster, clock, saved state and dropped sessions after removing a list of nodes, the tombstones whose nodes are notified, and to whom all are pushed |
| `MembershipStore.MembershipStore.HandleEvictSelf` | AgentRegistry/a2x_registry/cluster/membership.py:407-426 | a leaving peer is tombstoned above its record, dropped, the roster saved, and the tombstone pushed to the live members |
| `MembershipStore.MembershipStore.LeaveOld` | AgentRegistry/a2x_registry/cluster/membership.py:378-405 | no session with a live member of the left cluster remains, its records go, our own and other clusters' stay |
| `MembershipStore.MembershipStore.BecomeStandalone` | AgentRegistry/a2x_registry/cluster/membership.py:486-492 | the roster is cleared, every member's session dropped, the empty membership saved |
| `MembershipStore.MembershipStore.Persist` | AgentRegistry/a2x_registry/cluster/membership.py:530-545 | our cluster, our version and the records of our cluster are saved |
| `MembershipStore.MembershipStore.GcMembership` | AgentRegistry/a2x_registry/cluster/membership.py:512-528 | exactly the removals older than the retention go, and their number is returned |
| `MembershipStore.MembershipStore.ReconcileConnections` | AgentRegistry/a2x_registry/cluster/membership.py:461-482 | the pass connects the missing desired peers, each with its reconcile, keeps a session where the OPEN was accepted, and drops exactly the sessions of removed or absent nodes |
| `FloatText.PythonFloatRepr` | A4P/rust-sdk/src/canonical.rs:101-153 | fails exactly on non-finite floats, otherwise pushes the text of the matching layout |
| `FloatText.NeverAnInteger` | A4P/rust-sdk/src/canonical.rs:125-151 | a float's text has a point or an e and is no integer's text |
| `NumberText.IntReadsBack` | A4P/rust-sdk/src/canonical.rs:57-61 | an integer's text is a number of RFC 8259 section 6 and reads back as that integer |
| `NumberText.LayoutMeans` | A4P/rust-sdk/src/canonical.rs:119-151 | each of the four layouts spells the digits and exponent it was made from |
| `NumberText.FloatReadsBack` | A4P/rust-sdk/src/canonical.rs:97-153 | a float's text reads back as that float, sign of zero included, whatever follows it |
| `NumberText.FloatReprInjective` | A4P/rust-sdk/src/canonical.rs:97-153 | two floats print alike if and only if they are the same |
| `CanonicalForm.FloatTextIsTheOne` | A4P/rust-sdk/src/canonical.rs:97-153 | a float's text has Python's form, and no other number text of that form means the float: layout, threshold and number of digits are fixed |
| `CanonicalForm.ExponentIff` | A4P/rust-sdk/src/canonical.rs:125-136 | an exponent is printed if and only if the float's own is below -4 or above 15 |
| `CanonicalForm.ExponentText` | A4P/rust-sdk/src/canonical.rs:131-136 | it is printed with its sign and at least two digits, none of which could be left out |
| `NumberValue.MeaningIsExact` | A4P/rust-sdk/src/canonical.rs:97-153 | reading any number text keeps the rational value the grammar gives it |
| `NumberValue.ReprIsExact` | A4P/rust-sdk/src/canonical.rs:97-153 | the printed text of a float denotes exactly the decimal value printed |
| `JsonString.StringReadsBack` | A4P/rust-sdk/src/canonical.rs:84-95 | the text of a string is a string token of RFC 8259 section 7 and reads back as the string |
| `JsonString.NothingRaw` | A4P/rust-sdk/src/canonical.rs:84-95 | no control character is left unescaped |
| `CanonicalForm.EscapeIsShortest` | A4P/rust-sdk/src/canonical.rs:84-95 | no spelling of a character inside a string is shorter than its escape, and of that length, in lower-case hex, there is no other |
| `CanonicalForm.StringIsShortest` | A4P/rust-sdk/src/canonical.rs:84-95 | no text of a string is shorter than its canonical text |
| `CanonicalJson.WriteString` | A4P/rust-sdk/src/canonical.rs:84-95 | appends the escaped string |
| `CanonicalJson.WriteValue` | A4P/rust-sdk/src/canonical.rs:52-82 | appends the canonical text of any value; fails exactly when a number in it is not finite |
| `CanonicalJson.WriteObject` | A4P/rust-sdk/src/canonical.rs:35-50 | the comma-flag loop over sorted members appends the object's canonical text |
| `CanonicalJson.CanonicalText` | A4P/rust-sdk/src/canonical.rs:22-26 | the canonical text, or an error if and only if a number in it is not finite |
| `JsonParser.PrintThenParse` | A4P/rust-sdk/src/canonical.rs:21-95 | printing and then parsing gives the value back with members in key order |
| `JsonSame.TextIdentifiesValue` | A4P/rust-sdk/src/canonical.rs:21-95 | two values have the same canonical text if and only if they are equal as JSON values |
| `JsonSame.SameIsCanonical` | A4P/rust-sdk/src/canonical.rs:35-37 | values are equal, objects as maps from names to values, exactly when their canonical forms are |
| `JsonSame.SameByNames` | A4P/rust-sdk/src/canonical.rs:35-37 | two objects are equal if and only if every name leads to equal values, or to none, in both |
| `Order.LessAtFirstDifference` | A4P/rust-sdk/src/canonical.rs:35-37 | members are ordered by the code point at the first difference of their names, a prefix first |
| `JsonSame.KeyOrderBlind` | A4P/rust-sdk/src/canonical.rs:35-37 | insertion order never shows |
| `MandatePayload.ServerSignaturePayload` | A4P/rust-sdk/src/mandate_security.rs:222-228 | the canonical text of an object with scope "server" and the core, or an error exactly when a number in the core is not finite |
| `MandatePayload.UserAuthorizationPayload` | A4P/rust-sdk/src/mandate_security.rs:155-176 | the canonical text of an object with the user scope and a mandate whose members are exactly the core's, except that signatures holds only the server's; an error exactly without a server signature or with a number that is not finite |
| `MandatePayload.PayloadsIdentify` | A4P/rust-sdk/src/mandate_security.rs:167-176 | two signing inputs are the same text if and only if scope and mandate are equal |
| `MandatePayload.UserPayloadsIdentify` | A4P/rust-sdk/src/mandate_security.rs:155-176 | two users sign the same text if and only if their cores are the same JSON object apart from signatures and the server signatures are equal |
| `MandatePayload.DomainsSeparate` | A4P/rust-sdk/src/mandate_security.rs:222-228 | no text is both a server-signature payload and a user-authorization payload |
| `MandatePayload.UserSignaturesInvisible` | A4P/rust-sdk/src/mandate_security.rs:155-165 | adding or replacing signatures other than the server's does not change what a user signs |
| `MandatePayload.ServerSignatureCounts` | A4P/rust-sdk/src/mandate_security.rs:155-165 | over one core two signed parts are equal if and only if the server signatures are |
| `Lease.LeaseTable.InstallLease` | AgentRegistry/a2x_registry/common/lease.py:67-105 | the lease is created or replaced, healthy or in its grace window |
| `Lease.LeaseTable.RenewLease` | AgentRegistry/a2x_registry/common/lease.py:107-123 | a present lease is healthy again with fresh deadlines; an absent one is an error |
| `Lease.LeaseTable.RevokeLease` | AgentRegistry/a2x_registry/common/lease.py:125-152 | a present lease is unhealthy from now on, expired, with a fresh grace window, or goes when permanent; an absent one is reported |
| `Lease.LeaseTable.DropLease` | AgentRegistry/a2x_registry/common/lease.py:154-157 | the lease goes, all others stay, and an absent key is no error |
| `Lease.LeaseTable.IsUnhealthy` | AgentRegistry/a2x_registry/common/lease.py:166-171 | true exactly for a key whose lease is in its grace window; false for an absent key |
| `Lease.LeaseTable.SweepTick` | AgentRegistry/a2x_registry/common/lease.py:180-207 | the loop flips and removes exactly the expired leases and lists each of them once |
| `Lease.TableIsHistory` | AgentRegistry/a2x_registry/common/lease.py:67-207 | for every history the table holds exactly the keys whose latest install, renewal or revocation is still due, with that deadline; health plays no part |
| `Lease.LeaseIsHistory` | AgentRegistry/a2x_registry/common/lease.py:67-207 | for every history every field of a present lease: healthy if and only if its latest event is a renewal or an ordinary install and no sweep since came at or after its expiry; expiry, grace deadline, terms and last renewal by the events alone |
| `Lease.SweepReportsTheExpired` | AgentRegistry/a2x_registry/common/lease.py:195-199 | a sweep reports as newly unhealthy exactly the refreshed leases whose expiry it is the first sweep to reach |
| `Lease.SweepDeletesTheDue` | AgentRegistry/a2x_registry/common/lease.py:198-206 | a sweep deletes exactly the present keys whose history implies a deadline that has passed |
| `Lease.OnlyOneSweepMatters` | AgentRegistry/a2x_registry/common/lease.py:180-207 | since the latest event about a key only whether a sweep ran at or after its deadline matters |
| `Lease.PunctualHolderIsSafe` | AgentRegistry/a2x_registry/common/lease.py:107-123 | a holder that always renews before expiry stays healthy and is never reported |
| `Lease.SweepsCompose` | AgentRegistry/a2x_registry/common/lease.py:180-207 | supporting: sweeping at t1 and t2 leaves the table of one sweep at t2, and the outputs are disjoint unions |
| `Lease.OnlyTheLastSweepCounts` | AgentRegistry/a2x_registry/common/lease.py:180-207 | the same for any sequence of sweeps |
| `Lease.DeletedOncePerInstall` | AgentRegistry/a2x_registry/common/lease.py:180-207 | a key is reported deleted at most once per install, under any schedule |
| `Auth.OpValid` | AgentRegistry/a2x_registry/auth/store.py:308-485 | every operation with freshly generated ids and tokens keeps the tables and the index consistent |
| `Auth.IndexAgreesWithScan` | AgentRegistry/a2x_registry/auth/store.py:248-304 | in every reachable state authentication succeeds exactly when an unrevoked key with the token's hash belongs to an existing, enabled principal |
| `Auth.ReloadKeepsAnswers` | AgentRegistry/a2x_registry/auth/store.py:193-219 | persisting and loading changes no answer; only the reason given for a revoked key differs |
| `Auth.DuplicateLosesAKey` | AgentRegistry/a2x_registry/auth/store.py:468-485 | issuing a key whose hash is in force and revoking it makes the index lose the other key |
| `Auth.FreshTokenIffAgreement` | AgentRegistry/a2x_registry/auth/store.py:432-457 | issuing a key keeps the agreement in all futures if and only if no key in force has its hash |
| `Auth.ReasonsAreExact` | AgentRegistry/a2x_registry/auth/store.py:248-304 | the reason of every refusal: a key in force decides between granted and disabled; without one the token is invalid or revoked; the index never dangles |
| `Auth.ReloadRemembersRevoked` | AgentRegistry/a2x_registry/auth/store.py:193-219 | after a reload a token without a key in force is answered as revoked if and only if some key has its hash |
| `Auth.FirstTokenWorks` | AgentRegistry/a2x_registry/auth/store.py:308-371 | the first token of a new principal is granted to it and no other answer changes |
| `Auth.IssuedTokenWorks` | AgentRegistry/a2x_registry/auth/store.py:432-457 | an issued token is granted to its owner unless disabled, and no other answer changes |
| `Auth.RevokedTokenStops` | AgentRegistry/a2x_registry/auth/store.py:468-485 | a revoked key's token is invalid at once and no other answer changes |
| `Auth.RevokedForever` | AgentRegistry/a2x_registry/auth/store.py:468-485 | it is never granted again, in any run, until that very token is issued once more |
| `Auth.UpdateIsByFields` | AgentRegistry/a2x_registry/auth/store.py:381-428 | supporting: what an update leaves, field by field |
| `Auth.UpdateAnswers` | AgentRegistry/a2x_registry/auth/store.py:381-428 | an update disables all, enables all, or keeps exactly the granted tokens of the principal, and changes no answer of others |
| `Auth.DisablingLocksOut` | AgentRegistry/a2x_registry/auth/store.py:412-415 | after an update that disables a principal no token is granted to it in any run, whatever keys are issued, until it is enabled |
| `Auth.AlwaysProper` | AgentRegistry/a2x_registry/auth/store.py:308-428 | in every reachable state admins have all namespaces, others a list, and handles are unique |
| `Auth.AcceptedExactly` | AgentRegistry/a2x_registry/auth/store.py:308-371 | a new principal is accepted if and only if role and namespaces fit and its handle is free |
| `AuthStore.AuthStore.Load` | AgentRegistry/a2x_registry/auth/store.py:193-219 | loading what a state persisted gives that state with every key indexed, revoked ones too |
| `AuthStore.AuthStore.AuthenticateToken` | AgentRegistry/a2x_registry/auth/store.py:248-304 | the lookup gives the specified outcome and reason, and success agrees with the scan |
| `AuthStore.AuthStore.CreatePrincipal` | AgentRegistry/a2x_registry/auth/store.py:308-371 | a principal with its first key, persisted, and its token is granted to it; an invalid role or a handle in use changes nothing |
| `AuthStore.AuthStore.CreateKey` | AgentRegistry/a2x_registry/auth/store.py:432-457 | a key for an existing principal, indexed and persisted, whose token is granted to an enabled owner |
| `AuthStore.AuthStore.Revoke` | AgentRegistry/a2x_registry/auth/store.py:468-485 | the key is revoked, at the time of the first revocation, and persisted; no token of it is accepted any more |
| `AuthStore.AuthStore.Update` | AgentRegistry/a2x_registry/auth/store.py:381-428 | role, namespaces and note are the patch's where given; the principal is disabled since it first was, enabled, or left as it is; everything else stays, and a role that does not fit changes nothing |

## Left out

- `Resurrection.NoResurrection`: a live node has a session with the silent node when it falls silent, because a node without one never evicts it.
- `Convergence.ConvergesIffBacked`: every record is versioned and no cooldown is running when the calm begins; reconciles in which two hashed inputs collide are not counted as such.
- `ClusterStore.ClusterStore.Reconcile`: ids are free of the separator characters, as the code's comments promise; bucket numbers are not turned into text and back.
- `ClusterStore.ClusterStore.OnLocalMutation`: the registry write and its version stamp are one step; `register/service.py` is not part of this model.
- `ClusterStore.ClusterStore.HandleOpen`: authenticated clusters, that is session tokens, namespace gating and ephemeral namespaces, are not modelled; neither are peer addresses.
- `ClusterStore.ClusterStore.LocalIndexOf`: records from ephemeral sources, which the index skips, are not in the modelled registry; missing versions are stamped by `Reconcile` before the index is built.
- `MembershipStore.MembershipStore.ReconcileConnections`: who is behind an address does not change during one pass.
- `MembershipStore.MembershipStore.SetRemove`: the notifications and pushes are results of the method; their transport is not modelled.
- `Lease.LeaseTable.InstallLease`: the returned lease is a copy, while the program returns the entry itself.
- `FloatText.PythonFloatRepr`: a float is given by decimal digits and exponent; the search for the shortest digits of a binary float and the parsing back to one are library code.
- `JsonParser.PrintThenParse`: integers of any size, where the program has 64 bits; no insignificant whitespace is read, as canonical text has none.
- `MandatePayload.UserAuthorizationPayload`: the core is a parameter; its normalisation (`intent_mandate_core_payload`, `operation_mandate_core_payload`) is not modelled.
- `AuthStore.AuthStore.CreatePrincipal`: new ids are unused, as 48 random bits are meant to be.
- `AuthStore.AuthStore.AuthenticateToken`: audit log, `last_used_at` and the expiry field, which is not enforced, are not modelled.
- Transport: HTTP, routers, thread pools and sockets; a remote call is atomic and may fail, and `reach` says how many calls of a reconcile succeed.
- Disk mechanics: a save is one atomic snapshot; corrupt and missing files are not modelled.
- `set_add` (which writes the roster without comparing versions), `adopt`, `push_to_roster`, malformed and legacy roster entries.
- The sweepers' loops over peers: each step they take is a step of the protocol, in any order.
- Signature algorithms, WebAuthn, base64, the trust store and the validity-time check.
