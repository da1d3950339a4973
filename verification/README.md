# Verified models of RAINS and RHINE

A model in Dafny of the parts of this repository whose correctness is hardest to see from the code, with proofs.
`dafny verify dfyconfig.toml` checks all of it.

**Delegation status accumulators** (`offlineauth/rhine`). The list of intervals between delegated zones (`LeafChain`),
the Merkle tree over it as a value (`MerkleValue`, `MerklePath`) and as linked, partly shared nodes (`MerkleTrees`,
`Accumulator`), the provers of presence and absence (`Provers`), what an accepted proof means (`LeafMessages`,
`ProofMeaning`), and the log that keeps linked tree objects in a cache and their serialised form in a database
(`DsaLog`). The tree is the code's own: leaves and inner nodes are hashed alike and a level of odd length pairs its
last node with itself, unlike the tree of section 2.1 of RFC 6962. The hash is a parameter; nothing is assumed of it
but, where stated, the size of digests, and binding is stated as "or here are two messages with one digest".

**Delegation protocol** (`Delegation`, `SessionOrigins`, `HonestSessions`). Certificate authority, logs and
aggregators as a step system, one remote call a step, with any number of sessions, calls by outsiders and changing
accumulators in between. A signature verifies exactly when its party signed the data; certificate and proof checks are
parameters.

**Caches** (`attic/internal/pkg/cache`, `lruCache`). The negative assertion cache under all interleavings
(`NegCacheSteps`, `NegCacheCount`, `NegCacheIndex`, `NegCacheRuns`, `NegCacheStores`, `NegCacheRace`), where each call
to a structure with its own mutex is one step; the LRU cache (`LruCache`), the assertion cache (`AssertionCache`,
`AssertionCacheImpl`) and the pending query cache (`PendingQueries`, `PendingJoins`) one call at a time.

**Publishing** (`publisher`, `section`). Shards by number and by size (`Shards`, `Sharding`, `SizeSharding`), the text
whose length is the size (`ShardText`, `TextSharding`), Bloom filters and pshards (`Bloom`, `Psharding`), and lookup
in the negative cache (`Lookup`).

**Signatures and zone files**. Validity windows and signature checking (`Validity`, `SigCheck`), and the zone file
printer and parser over words (`ZoneWords`, `ZoneCodec`, `ZoneParser`, `ZoneRoundTrip`, `ZoneEncoder`) and over text
(`ZoneSplit`, `ZoneText`).

Go strings and byte slices are sequences of characters or bytes (`Names` has Go's order on them). Clocks, hash
functions, the order in which a map is walked, the result of sorting among equals, the key evicted and the success of
a database write are parameters or left open. Integers are unbounded; 64-bit wrap-around is written out where it
matters, in the Bloom filter indices and the numbers of zone files.

Where code and documentation differ the code is followed:

- `publisher.go` promises that a shard by size does not exceed the limit. The size is measured before the range ends
  are known, and the finished shard can be larger: `TextSharding.FinishedShardExceedsLimit`, and exactly when,
  `SizeSharding.FinishedFits`, `TextSharding.TextShardsFit`.
- The verifier of a Merkle proof reuses one hasher without reset, so it agrees with the tree on one-level paths only:
  `Provers.HonestProofAccepted`, `Provers.HonestProofRejected`, `ProofMeaning.VerifiedIsRight`.
- The zone index of the negative cache is meant to list every cached key of a zone. A key can be missing when it is
  removed and added again at the same time: `NegCacheRace.CachedValueCanMissTheIndex`, and exactly when,
  `NegCacheRuns.CalmIsExact`.
- The pending query cache is meant to forward a query once while its answer is awaited. Dropping a token takes out
  whatever its query is mapped to, also the entry of a newer token, and the query is then forwarded again:
  `PendingJoins.QueryIsForwardedTwice`, and exactly when, `PendingJoins.LinkedIffNeverCut`.
- A validity start of zero counts as not set, so the earliest start can be overwritten, `Validity.SinceIsMinimum`, and
  the result can depend on the order of the windows: `Validity.OrderCanMatter`, and exactly when,
  `Validity.StartOrderIsExact`.
- A leading total interval covers every name, so a covering leaf by itself is no evidence of absence:
  `Provers.CoveringMeansAbsent`.
- The scan for the overlap of validity windows reports a gap that is none when a window ends before it starts:
  `Validity.BackwardWindowHidesUnion`, and exactly when, `Validity.OverlapIsExact`.
- The bytes hashed for a leaf do not tell where the zone name ends and the level begins:
  `LeafMessages.MessagesCanAgree`, and exactly when, `LeafMessages.MessagesAreExact`.

## Model

| member | source | states |
|---|---|---|
| LeafChain.InsertNewDSLeafZone | offlineauth/rhine/rhineTree.go:78-122 | The loop over the slice, with its shift and its two overwrites, computes `Insert`: the first interval that starts after the zone is preceded by a new one, and the interval before it ends at the zone. |
| LeafChain.SplitKeepsChain | offlineauth/rhine/rhineTree.go:86-119 | Splitting a chain at a zone gives the chain with the zone placed in order. |
| LeafChain.InsertKeepsChain | offlineauth/rhine/rhineTree.go:78-122 | One insertion turns a list form (an optional leading total interval, then a chain from minus to plus infinity) into the list form with the zone placed, never indexes the slice in front of its start, and leaves a leading total interval alone. |
| LeafChain.PlacedKeepsOrder | offlineauth/rhine/rhineTree.go:86-119 | Placing a zone keeps the boundaries sorted. |
| LeafChain.InsertionRuns | offlineauth/rhine/rhineTree.go:78-122 | After any sequence of insertions from the empty list or the total interval, the list is a list form whose inner boundaries are exactly the inserted zones, sorted; strictly sorted if and only if the inserted names are distinct. |
| MerkleValue.RehashIsStored | offlineauth/rhine/merkleTree.go:59-79 | Recomputing digests bottom up gives the stored root digest for every tree whose digests are right. |
| MerkleValue.RehashBinds | offlineauth/rhine/merkleTree.go:59-79 | For two trees of one shape, whatever digests they store: the recomputed digests are equal if the leaves hash the same messages, and only then, or two messages with one digest are returned. |
| MerkleValue.BuildUpIsPerfect | offlineauth/rhine/merkleTree.go:192-217 | Pairing up a level of complete trees, the last one with itself where the level is odd, ends in one complete tree with right digests. |
| MerkleValue.BuildUpLeaves | offlineauth/rhine/merkleTree.go:192-217 | The leaves of the finished tree start with the leaves of the level and repeat only what the level has. |
| MerkleValue.TreeOfShape | offlineauth/rhine/merkleTree.go:156-217 | For every non-empty content list: all leaves at one depth, digests right, two to the depth leaves that start with the list (its last element doubled if the list is odd) and hold nothing else. |
| MerkleValue.RebuildFromLeaves | offlineauth/rhine/merkleTree.go:226-253 | Building again from the leaf contents of a complete tree gives that tree, up to the marks on copied leaves. |
| MerklePath.PathAtFolds | offlineauth/rhine/merkleTree.go:125-151 | From any node, folding the steps up to the root with one hash a level gives the root digest. |
| MerklePath.PathFoldsToRoot | offlineauth/rhine/merkleTree.go:125-151 | For every tree with right digests and every leaf content, the path of that content folds to the root digest, including nodes that are their own sibling and levels whose two digests are equal. |
| MerklePath.PathLength | offlineauth/rhine/merkleTree.go:125-151 | A path has as many steps as the tree has levels. |
| MerklePath.FoldBinds | offlineauth/rhine/merkleTree.go:59-79 | A path of the depth of the tree that folds to the root digest starts from the digest of some leaf, or two different messages with one digest are returned. |
| MerklePath.FoldReaches | offlineauth/rhine/merkleTree.go:59-79 | The same for a path of any length: it starts from the digest of a node as many levels below the root, or it is longer than the tree is deep and passes through the message of a leaf, or two messages with one digest are returned. |
| MerkleTrees.Join | offlineauth/rhine/merkleTree.go:196-210 | Two nodes get a new parent with the digest of their two digests, and both parent links are set to it, also when the two are one node. |
| MerkleTrees.BuildLevel | offlineauth/rhine/merkleTree.go:192-211 | One pass over a level makes the next level of linked nodes, in order, from pairs. |
| MerkleTrees.BuildIntermediate | offlineauth/rhine/merkleTree.go:192-217 | Terminates on every level of at least two nodes and returns a linked root that stands for `BuildUp` of the level, with the given nodes among its leaves in order. |
| MerkleTrees.MakeLeafs | offlineauth/rhine/merkleTree.go:161-183 | Leaf nodes for the contents, and a marked copy of the last one if their number is odd. |
| MerkleTrees.BuildWithContent | offlineauth/rhine/merkleTree.go:156-188 | The linked tree built from a content list stands for `TreeOf` of the list, and its leaf list is the front of its leaves. |
| Accumulator.DeleteLinks | offlineauth/rhine/merkleTree.go:339-347 | Clears the parent link of every node below, shared nodes included, and nothing else. |
| Accumulator.Marshal | offlineauth/rhine/merkleTree.go:364-372 | The serialised form of a tree without parent links is the tree as a value. |
| Accumulator.Unmarshal | offlineauth/rhine/merkleTree.go:374-383 | Reading a value back makes fresh, unlinked and unshared nodes that stand for it. |
| Accumulator.RestoreLinks | offlineauth/rhine/merkleTree.go:349-361 | Sets every parent link below a node and appends the leaves met, left to right. |
| Accumulator.Climb | offlineauth/rhine/merkleTree.go:131-147 | Following parent links from a leaf collects the sibling digests and positions of its path, up to the root. |
| Accumulator.VerifyNode | offlineauth/rhine/merkleTree.go:59-79 | The recursion over linked nodes computes the recomputed digest of the tree they stand for. |
| Accumulator.MerkleTree.RebuildTreeWith | offlineauth/rhine/merkleTree.go:244-253 | The object is valid afterwards and stands for the tree of the new contents. |
| Accumulator.MerkleTree.GetMerklePath | offlineauth/rhine/merkleTree.go:125-151 | Climbing the parent links yields the path of the first leaf with the content, the empty one if no leaf has it. |
| Accumulator.MerkleTree.RebuildTree | offlineauth/rhine/merkleTree.go:226-241 | Rebuilding from the listed leaves gives the valid tree of their contents; where the list is the full one the root digest stays what it was. |
| Accumulator.MerkleTree.VerifyTree | offlineauth/rhine/merkleTree.go:257-267 | True on every valid tree: the recomputed root digest is the stored one. |
| Accumulator.MerkleTree.PrepareForMarshalling | offlineauth/rhine/merkleTree.go:323-329 | Cuts all parent links, empties the leaf list and keeps all that serialisation keeps. |
| Accumulator.MerkleTree.RestoreAfterMarshalling | offlineauth/rhine/merkleTree.go:331-337 | Sets all links and lists all leaves in order, although shared nodes are visited more than once; nothing but links and the leaf list changes. |
| Accumulator.MerkleTree.Write | offlineauth/rhine/dsaLog.go:255-288 | Preparing, serialising and restoring returns the tree the object stands for, which stays, and with it the root digest and every path; the leaf list now has two to the depth leaves, starts with the old one and adds no content. |
| Accumulator.Read | offlineauth/rhine/dsaLog.go:96-125 | Reading a stored value back gives a valid tree of fresh nodes that stands for it, with all its leaves listed. |
| Provers.GetMPathProofPresence | offlineauth/rhine/rhineTree.go:125-158 | The loop over the leaf list returns the answer of the presence prover: the first leaf that starts at the name, with its path. |
| Provers.GetMPathProofAbsence | offlineauth/rhine/rhineTree.go:161-198 | The loop with its running candidate returns the answer of the absence prover: the last covering leaf, unless some leaf starts at the name. |
| Provers.OnlyGapCovers | offlineauth/rhine/rhineTree.go:161-198 | In a chain, exactly one interval covers a name that is not a boundary, the gap around it. |
| Provers.ProversAreExact | offlineauth/rhine/rhineTree.go:125-198 | For every tree of a list form, every leaf list that repeats it, and every name exactly one prover succeeds; presence exactly for delegated names (and the empty one); an absence proof carries the one gap of the chain, which covers no delegated name, also with a leading total interval or copied leaves; either proof folds to the root. |
| Provers.ListRepeats | offlineauth/rhine/merkleTree.go:156-188 | Any leaf list of a built tree that is at least as long as the contents, the one with a copied leaf of a tree just built and the full one of a restored tree among them, repeats the content list and only later contents. |
| Provers.ObjectProvesExactly | offlineauth/rhine/rhineTree.go:125-198 | So the answers of the two prover loops on a tree object, just built, restored or read back, are exact for every name. |
| Provers.CoveringMeansAbsent | offlineauth/rhine/rhineTree.go:69-76 | That no leaf covers a delegated name, the reason why a covering leaf would show absence, holds if and only if the list has no leading total interval or nothing is delegated. |
| Provers.VerifyMPathProof | offlineauth/rhine/rhineTree.go:200-246 | Range check and digest loop as written: the hasher is never reset, so each level hashes everything fed to it so far. |
| Provers.HonestProofAccepted | offlineauth/rhine/rhineTree.go:222-246 | An honest proof over a one-level tree passes the digest loop; one over a deeper tree passes it only if two different messages with one digest exist, which are returned. |
| Provers.RunningFoldBinds | offlineauth/rhine/rhineTree.go:222-246 | For the digest loop as written and a path of any length with siblings of any size: an accepted digest is that of the root or of one of its two children, or two messages with one digest are returned. |
| Provers.HonestProofRejected | offlineauth/rhine/rhineTree.go:222-246 | A hash function for which every honest proof over three or more intervals is rejected, while one hash a level gives the root. |
| LeafMessages.MessagesCanAgree | offlineauth/rhine/rhineTree.go:41-49 | Two different leaves, zone "a" at level 2 and zone "a1" at level 0, are hashed from the same bytes. |
| LeafMessages.MessagesAreExact | offlineauth/rhine/rhineTree.go:41-49 | For any set of names without the characters 0 to 2 and levels of any number of bits: the hashed bytes determine the leaf, for all leaves with ends of these names, if and only if no name is another one followed by a binary numeral that starts with 1 and has fewer digits than a level can have. |
| LeafMessages.ByteMessagesAreExact | offlineauth/rhine/zone.go:15-15 | The same for the levels of the code, which are below 256: the numeral then has at most seven digits. |
| ProofMeaning.AcceptedIsRight | offlineauth/rhine/rhineTree.go:200-246 | Any proof, honest or not and with a path of any length, that passes the range check and folds with one hash a level to the root digest of an accumulator is right about the name, or two messages with one digest are returned, or the accumulator has another leaf with the same bytes, or the path is not as long as the tree is deep and some leaf's bytes are what an inner node hashes; only a leading total interval lets an absence proof cover a delegated name. |
| ProofMeaning.VerifiedIsRight | offlineauth/rhine/rhineTree.go:200-246 | The same for the verifier as written. Over three or more intervals it accepts no proof whatever, unless two messages with one digest are at hand or the leaf in the proof has the bytes of an inner node. |
| ProofMeaning.SeparateIsNotMistaken | offlineauth/rhine/rhineTree.go:200-246 | No other leaf has the bytes of the one in the proof where the delegated names and those in the proof meet the condition of `MessagesAreExact`. |
| ProofMeaning.ShortIsNotInner | offlineauth/rhine/rhineTree.go:41-49 | No leaf has the bytes of an inner node where the bytes of leaves are shorter than a digest and those of the proof's leaf than two. |
| ProofMeaning.PlainIsNotMistaken | offlineauth/rhine/rhineTree.go:200-246 | So none has where no name ends in a binary digit, whatever the levels. |
| DsaLog.DSALog.DSProofRet | offlineauth/rhine/dsaLog.go:76-190 | Answered from the live, linked tree object on a hit, and from one read from the database and relinked on a miss, the answer is the one `AnswerFor` gives for the record that object stands for; while cache and database agree it is the answer read from the database. |
| DsaLog.DSALog.AddDelegationStatus | offlineauth/rhine/dsaLog.go:193-318 | Eviction, the parent's tree object rebuilt in place or made anew, the cutting and restoring of its links around the write, the child's empty tree and the two writes leave all cached objects linked, with full leaf lists and sharing no node, and change what they stand for as `Added` says, of which `AddedIsExact` and `AddedIsStored` say zone by zone what it is; the result says whether both writes succeeded. |
| DsaLog.FillApart | offlineauth/rhine/dsaLog.go:239-261 | Rebuilding one tree object in place and writing it leaves every cached tree that is another object linked and standing for what it stood for, and shares no node with them. |
| DsaLog.DSALog.RebuildParent | offlineauth/rhine/dsaLog.go:235-256 | A cached parent keeps its object: only that object changes, and it stands for the accumulator with the child inserted. |
| DsaLog.AddedCoherent | offlineauth/rhine/dsaLog.go:193-318 | A call keeps every cached accumulator equal to its database copy if and only if each write it attempts succeeds or would change nothing, whichever key is evicted. |
| DsaLog.RunKeeps | offlineauth/rhine/dsaLog.go:193-318 | While all writes succeed, cache and database agree and all records are well formed in every reachable state. |
| DsaLog.CacheIsTransparent | offlineauth/rhine/dsaLog.go:76-318 | In every such state the answer for any zone, name and claim is the answer given with an empty cache. With the two methods above this is the log on its objects. |
| DsaLog.AnswersAreExact | offlineauth/rhine/dsaLog.go:76-190 | For a record of the log presence is proved exactly for its children and the empty name, absence exactly for all other names, and the proof folds to the reported root digest. |
| DsaLog.AddedIsExact | offlineauth/rhine/dsaLog.go:201-300 | One call, whichever writes succeed, zone by zone: a cache that is not over its limit loses nothing, a larger one only the key met first; a parent still cached keeps its data and has its old children and the child, one that is not is new and has only the child; the child has no children; every other cached zone keeps its record. |
| DsaLog.AddedIsStored | offlineauth/rhine/dsaLog.go:255-316 | The same for the database: the parent is stored after the first write, the child after the second, and no other record changes. |
| DsaLog.RunAnswers | offlineauth/rhine/dsaLog.go:76-318 | Every run from the empty log while all writes succeed, whatever is evicted: a zone is known if and only if a call mentioned it; presence is proved exactly for the empty name and for the names added to the zone after which the zone was neither added as a child nor dropped from the cache and taken up again as a parent; absence exactly for the others. |
| DsaLog.SmallRunLists | offlineauth/rhine/dsaLog.go:193-318 | If the calls mention no more zones than the cache may hold, these names are exactly those added to the zone since it was last added as a child. |
| Delegation.AbsentIsAbsent | offlineauth/rhine/loggerManager.go:191-229 | A log that finds its own absence proof acceptable has, in its cache or else in its database, a well-formed accumulator of the parent that does not list the child, and the child's name is not empty. |
| Delegation.LoggedKeepsCore | offlineauth/rhine/loggerManager.go:207-281 | DemandLogging, by whomever called, keeps: every status a log remembers under an id it recorded for a request of that id. |
| Delegation.RecordedWasAccepted | offlineauth/rhine/loggerManager.go:191-281 | For whatever a log has recorded there was an event of the run that asked it, for an approved request; the status has the logs, zone and level of the request and a certificate that fits it, the authority had signed its digest, and the log's own accumulator of the parent did not list the zone. |
| Delegation.ConfirmedWasAccepted | offlineauth/components/aggregator/aggserver/agg_server.go:63-87 | For whatever an aggregator has confirmed there was an event of the run that asked this aggregator; the authority had signed the digest of the status, and every log named in a witness had signed that it witnesses this digest. |
| Delegation.FinishMeansRecorded | offlineauth/components/log/logserver/log_server.go:98-131 | A log that accepts confirmations for a digest had recorded that digest under the session's id, even where the id of the call and the id in the signed request differ. |
| Delegation.ProvingKeeps | offlineauth/components/ca/caserver/ca_server.go:63-107 | Collecting absence proofs and signing the status keep the invariant. |
| Delegation.DemandingKeeps | offlineauth/components/ca/caserver/ca_server.go:122-158 | Having the logs record the status and checking their witnesses keep the invariant. |
| Delegation.SubmittingKeeps | offlineauth/components/ca/caserver/ca_server.go:182-225 | Having the aggregators confirm and checking the confirmations keep the invariant: what is collected was confirmed, for this digest. |
| Delegation.FinishingKeeps | offlineauth/components/ca/caserver/ca_server.go:233-265 | Handing the confirmations to the logs and issuing keep the invariant. |
| Delegation.OthersKeep | offlineauth/components/aggregator/aggserver/agg_server.go:63-87 | New sessions and calls made by anybody else to logs (DemandLogging, SubmitACFM) and aggregators keep the invariant. |
| Delegation.RunKeeps | offlineauth/components/ca/caserver/ca_server.go:63-265 | The invariant holds in every state of every interleaving. |
| Delegation.IssuedMeansAgreed | offlineauth/components/ca/caserver/ca_server.go:63-265 | In every interleaving, if a certificate is issued, then for each designated log there was an event of the run that asked this log, for an approved request of the session's id, to record a status with the request's logs, zone and level that the authority had signed, and the log's own accumulator of the parent did not list that zone; for each listed aggregator there was an event that asked it with the signed status and witnesses signed by their logs. The status is the certificate's, or two statuses have one digest. |
| SessionOrigins.IssuedWasOrdered | offlineauth/components/ca/caserver/ca_server.go:63-265 | In every interleaving, if a certificate is issued, then a session was begun with an approved request under its id; the status has the logs, zone and level of that request; each designated log had been asked in a session for it when its own accumulator of the parent did not list the child; and each had been handed at least one confirmation, all for the digest it remembered under the id and signed by the aggregators they name. |
| HonestSessions.HonestSessionEnds | offlineauth/components/ca/caserver/ca_server.go:63-287 | Certificates do get issued: from any state, with any number of logs and aggregators, an approved request whose logs all find the child absent, run without interruption, has its certificate after a fixed number of calls, unless there are logs and no aggregator; then the session fails. |
| NegCacheSteps.StepKeepsBase | attic/internal/pkg/cache/negAssertionCache.go:72-168 | Every step of every thread keeps: locks and holders match, threads know what they hold, a value not deleted is in the cache under its key, a deleted one is there exactly until the thread that deleted it takes it out. |
| NegCacheSteps.FreeIsSettled | attic/internal/pkg/cache/negAssertionCache.go:83-87 | A value nobody holds is in the cache if and only if it is not deleted. |
| NegCacheCount.CountMoves | attic/internal/pkg/cache/negAssertionCache.go:90-93 | A step on a held value that changes the counter by what it changes in stored sections and in what its thread owes keeps the counter exact. |
| NegCacheCount.StepKeepsCount | attic/internal/pkg/cache/negAssertionCache.go:72-168 | Every step keeps: counter equals the sections of the values not deleted plus what threads in mid-operation still have to subtract or add. |
| NegCacheIndex.ListKeepsIndexed | attic/internal/pkg/cache/negAssertionCache.go:88-91 | Listing a new value puts no live value out of the zone index. |
| NegCacheIndex.UnlistKeepsIndexed | attic/internal/pkg/cache/negAssertionCache.go:109-112 | Taking a key out of the index can cost one other live value its entry, and that value is then among the lost. |
| NegCacheIndex.StepKeepsIndexed | attic/internal/pkg/cache/negAssertionCache.go:72-168 | Every step keeps: no index entry outlives its value's removal, and a live value is listed, or lost, or about to be listed by the one thread that made it. |
| NegCacheRuns.RestIsConsistent | attic/internal/pkg/cache/negAssertionCache.go:72-168 | After any interleaving of any number of threads, when all are idle: reachable if and only if not deleted, counter equal to the sections stored in reachable values, no stale index entry, and a cached value is listed if and only if no removal took its entry for another value. |
| NegCacheRuns.CalmIsExact | attic/internal/pkg/cache/negAssertionCache.go:83-168 | A schedule can at no point go on to lose a live value's entry if and only if none of its steps lists a new value under an entry that another thread, having taken its value out of the cache, is about to take out of the index. |
| NegCacheRuns.CalmRestIsComplete | attic/internal/pkg/cache/negAssertionCache.go:83-168 | After such a schedule, when all threads are idle, every cached value is listed under its zone. |
| NegCacheRuns.RaceLoses | attic/internal/pkg/cache/negAssertionCache.go:88-112 | After a step of that kind, if the other thread moves next it takes out the live value just listed. |
| NegCacheRuns.StoresAreReachable | attic/internal/pkg/cache/negAssertionCache.go:83-95 | Whenever a thread stores a section, and until it lets go of the value, the value is in the cache under its key: no section goes to an orphan. |
| NegCacheStores.AddStores | attic/internal/pkg/cache/negAssertionCache.go:72-95 | Every run, at the step that takes a thread from `add` to eviction: the thread was idle when it was called with its request, and held the lock of a value until now; the value is cached under the request's key, and its sections are those it had when the lock was taken, with the request's section and expiration if it was not there. |
| NegCacheStores.SectionStays | attic/internal/pkg/cache/negAssertionCache.go:72-168 | Every run: a section of a cached value is still there later, with its expiration and the value still cached, unless in between the value was evicted or a sweep of the value read a time after that expiration for it. |
| NegCacheStores.SweepIsExact | attic/internal/pkg/cache/negAssertionCache.go:152-157 | Every run: a sweep leaves a value that is not deleted exactly the sections whose expiration is not before the time read for them. |
| NegCacheStores.LimitIsMet | attic/internal/pkg/cache/negAssertionCache.go:97-101 | Every run: a thread is done with eviction only when it finds the counter below the limit or nothing in the cache that may be evicted. |
| NegCacheRuns.NeverStuck | attic/internal/pkg/cache/negAssertionCache.go:72-168 | No interleaving deadlocks: while some thread is not idle, some thread can take a step. |
| NegCacheRuns.OneThreadLosesNothing | attic/internal/pkg/cache/negAssertionCache.go:72-168 | With one thread every schedule is calm, so no entry is ever taken for another live value. |
| NegCacheRace.CachedValueCanMissTheIndex | attic/internal/pkg/cache/negAssertionCache.go:88-112 | With two threads there is a run after which a cached value is missing from the zone index. |
| LruCache.Cache.GetOrAdd | attic/internal/pkg/lruCache/lruCache.go:38-61 | New state, value and freshness as `Inserted`: an existing key moves to the front of its list, a new one enters the list its flag names. |
| LruCache.Cache.Get | attic/internal/pkg/lruCache/lruCache.go:65-79 | A present key moves to the front of its list; the map stays. |
| LruCache.Cache.Remove | attic/internal/pkg/lruCache/lruCache.go:94-109 | The key leaves the map and its list, and its value is returned. |
| LruCache.Cache.GetLeastRecentlyUsed | attic/internal/pkg/lruCache/lruCache.go:113-122 | The last key of the evictable list with its value, or nothing if that list is empty. |
| LruCache.RunRefines | attic/internal/pkg/lruCache/lruCache.go:38-122 | After every run each list holds exactly the keys of its kind, in the order of their last use, latest first, where last use is read off the events alone. |
| LruCache.OldestIsLeastRecentlyUsed | attic/internal/pkg/lruCache/lruCache.go:38-122 | After every run the map's keys are the disjoint union of the lists, no key is listed twice, and the key offered for eviction is the non-internal one whose last GetOrAdd or Get is the oldest; none is offered exactly when all keys are internal. |
| AssertionCache.GotOrAddedKeeps | attic/internal/pkg/cache/assertionCache.go:89-104 | Getting or adding a key keeps counter, holder counts and zone index exact. |
| AssertionCache.StoredKeeps | attic/internal/pkg/cache/assertionCache.go:105-111 | Storing an assertion under a key keeps all books exact. |
| AssertionCache.EvictedKeeps | attic/internal/pkg/cache/assertionCache.go:125-133 | Evicting a key keeps all books exact and removes that key only. |
| AssertionCache.AddIsSafe | attic/internal/pkg/cache/assertionCache.go:81-136 | Adding keeps counter equal to stored entries, holder counts and zone index exact, drops no internal key and none of its entries, terminates, and ends below the limit or with internal keys only. A key that was not cached gets an entry that is internal as given, in the given zone, with the assertion and its expiration; a cached one keeps what it has and gets the assertion if missing; nothing is evicted that need not be. |
| AssertionCache.ZoneRemovalKeeps | attic/internal/pkg/cache/assertionCache.go:222-244 | Removing a zone, its index entry first and then the values one by one in any order, keeps all books exact and removes exactly the keys whose value records the zone. |
| AssertionCache.RunIsExact | attic/internal/pkg/cache/assertionCache.go:81-244 | After every sequential run of additions, lookups, sweeps and zone removals from the empty cache all books are exact, counter, holder counts and zone index, and right after an addition the cache is below its limit or holds internal keys only. |
| AssertionCache.SweptKeyKeeps | attic/internal/pkg/cache/assertionCache.go:197-217 | Dropping the expired assertions of a key, and the key when nothing is left, keeps all books exact. |
| AssertionCacheImpl.LowerAll | attic/internal/pkg/cache/assertionCache.go:128-132 | The loop lowers the count of each assertion of a value by one and no other. |
| AssertionCacheImpl.AssertionImpl.Add | attic/internal/pkg/cache/assertionCache.go:81-136 | The two loops reach the state of storing under every key and then evicting the least recently used key while the cache is full; all books stay exact, and the cache ends below the limit or with internal keys only; the result is false exactly when the call stored something and filled the cache. |
| AssertionCacheImpl.AssertionImpl.RemoveExpiredValues | attic/internal/pkg/cache/assertionCache.go:191-219 | All books stay exact; the assertions left are exactly those whose expiration is not before now, each key left has one and keeps its zone and its mark as internal. |
| AssertionCacheImpl.AssertionImpl.RemoveZone | attic/internal/pkg/cache/assertionCache.go:222-244 | All books stay exact, and exactly the keys whose value records the zone are gone. |
| PendingQueries.PendingQuery.Add | attic/internal/pkg/cache/pendingQueryCache.go:65-91 | Full cache, message with something else than queries, a waiting query and a new one are treated as `Added` says; the result says that the query is to be forwarded. |
| PendingQueries.PendingQuery.GetAndRemove | attic/internal/pkg/cache/pendingQueryCache.go:95-109 | Returns all senders of the token and drops the token and its query. |
| PendingQueries.PendingQuery.RemoveExpiredValues | attic/internal/pkg/cache/pendingQueryCache.go:112-126 | The loop drops exactly the tokens that expired before now, with their queries, leaves the others as they are and keeps the invariant. |
| PendingQueries.AddKeepsMaps | attic/internal/pkg/cache/pendingQueryCache.go:65-91 | With a fresh token: every query still points to a live token, and all senders of a token have its query's key. |
| PendingQueries.AddKeepsCount | attic/internal/pkg/cache/pendingQueryCache.go:65-91 | With a fresh token: the counter is the number of pending senders and within its maximum, and an accepted sender is pending. |
| PendingQueries.DropKeeps | attic/internal/pkg/cache/pendingQueryCache.go:101-106 | Dropping a token keeps the invariant and takes exactly its senders from the pending ones. |
| PendingQueries.SweepKeeps | attic/internal/pkg/cache/pendingQueryCache.go:112-126 | The senders pending before a sweep are, as multisets, those of the expired tokens and those still pending. |
| PendingQueries.RunConserves | attic/internal/pkg/cache/pendingQueryCache.go:65-126 | Over every run with fresh tokens the invariant holds and, as multisets, accepted senders are those returned, those whose token expired and those still pending. |
| PendingJoins.QueryIsForwardedTwice | attic/internal/pkg/cache/pendingQueryCache.go:81-106 | A run after which two unexpired tokens wait for one query: the answer under an expired token comes after the query was forwarded again, and takes out the new entry; the next sender is forwarded a third time. |
| PendingJoins.LinkedIffNeverCut | attic/internal/pkg/cache/pendingQueryCache.go:81-126 | With fresh tokens and a clock that does not go back: after every call of a run each unexpired token can be found by its query, if and only if no call drops a token while it keeps an unexpired one that waits for the same query. |
| PendingJoins.ForwardedOnce | attic/internal/pkg/cache/pendingQueryCache.go:65-91 | In such a run a sender who is accepted, and whose query has an unexpired token, joins the senders of that token and nothing else changes but the counter, so the query is not forwarded again; and no two unexpired tokens wait for one query. |
| PendingJoins.OthersAreForwarded | attic/internal/pkg/cache/pendingQueryCache.go:65-91 | A sender who is accepted, and whose query has no unexpired token, is the only one to wait under the new token with the given expiration; one who is not accepted changes nothing. |
| Shards.RangeIsOpen | attic/internal/pkg/section/shard.go:266-272 | The seven clauses of the range test amount to an open range in which the empty string is no bound, unless a bound is one of the two range marks. |
| Shards.InRangeIffInPiece | attic/internal/pkg/publisher/publisher.go:222-249 | A name of the zone is in the range of a piece if and only if its assertion is in that piece. |
| Shards.Covered | attic/internal/pkg/publisher/publisher.go:222-249 | Every non-empty name is in the range of some piece. |
| Shards.ShardsAreExact | attic/internal/pkg/publisher/publisher.go:167-249 | For sorted assertions with proper names and shards cut between names: the assertions are conserved in order, no name is split, every shard is consistent, every non-empty name is in some range, and a name in a shard's range is in the zone if and only if it is in that shard. |
| Sharding.RunsCountNames | attic/internal/pkg/publisher/publisher.go:229-235 | Counting changes of name counts the different names of a sorted list. |
| Sharding.GroupAssertionsToShardsByNumber | attic/internal/pkg/publisher/publisher.go:222-249 | The loop cuts between names, gives each shard the range from the name before it to the name after it, and fills every shard but the last with exactly the configured number of names, the last with at most that. |
| SizeSharding.GroupAssertionByName | attic/internal/pkg/publisher/publisher.go:205-218 | The nested loops return, in order, the maximal runs of equal names. |
| SizeSharding.GroupAssertionsToShardsBySize | attic/internal/pkg/publisher/publisher.go:167-201 | On success the shards are pieces of whole names with the ranges the pieces call for, each fits the limit as measured with open ranges, and none could have taken the next name too; on failure some name is too long by itself. |
| SizeSharding.PackedNeedsShortNames | attic/internal/pkg/publisher/publisher.go:176-192 | For an encoder whose output only grows, success means that no name is too long by itself: the call fails if and only if some name is. |
| SizeSharding.PieceIsLongest | attic/internal/pkg/publisher/publisher.go:174-197 | Each piece of the result is the longest run of whole names from its start that fits. |
| SizeSharding.FinishedFits | attic/internal/pkg/publisher/publisher.go:165-201 | For an encoder whose output only grows: all finished shards keep to the limit, range ends included, if and only if every longest fitting run met by packing from the start also fits with its two neighbouring names as bounds; the one shard of an empty zone is never measured. |
| ShardText.EncodeObjects | attic/internal/pkg/zonefile/zoneFileEncoder.go:150-227 | The loop joins the padded type and value of each object with line breaks; one object of an unknown type makes the whole text empty. |
| ShardText.EncodeShard | attic/internal/pkg/zonefile/zoneFileEncoder.go:39-64 | The loop writes head, range ends with marks for open ones, the contained assertions and the signatures, character by character. |
| TextSharding.TextIsMonotone | attic/internal/pkg/zonefile/zoneFileEncoder.go:39-64 | The text of a shard never gets shorter by adding assertions. |
| TextSharding.RangesCost | attic/internal/pkg/zonefile/zoneFileEncoder.go:40-49 | Range ends lengthen the text by what they are longer than the marks. |
| TextSharding.TextShardsFit | attic/internal/pkg/publisher/publisher.go:165-201 | For the text: the grouping keeps to the limit if and only if each longest run met by packing has room for what the names of its two neighbours are longer than the marks. |
| TextSharding.ShortNamesFit | attic/internal/pkg/publisher/publisher.go:165-201 | So it always does when all names have one character. |
| TextSharding.FinishedShardExceedsLimit | attic/internal/pkg/publisher/publisher.go:165-201 | Two addresses and a limit of 51 for which the grouping returns a first shard of 52 characters. |
| Bloom.SetBit | attic/internal/pkg/datastructures/bitarray/bitarray.go:9-16 | Fails exactly out of range; otherwise the bits set afterwards are those set before and the given one; a position from -7 to -1 sets nothing. |
| Bloom.GetBit | attic/internal/pkg/datastructures/bitarray/bitarray.go:19-25 | Returns the bit, and an error exactly out of range. |
| Bloom.IndexWithin | attic/internal/pkg/section/bloomfilter.go:60-60 | The index, reduced after 64-bit wrap-around, is always in range. |
| Bloom.Add | attic/internal/pkg/section/bloomfilter.go:71-82 | Fails exactly for an unsupported hash; otherwise the filter answers "maybe" to the entry, keeps every bit it had, and gains no bit that is not the entry's. |
| Bloom.Contains | attic/internal/pkg/section/bloomfilter.go:54-67 | Answers "maybe" exactly when all bits of the entry are set. |
| Bloom.KeepsProbes | attic/internal/pkg/section/bloomfilter.go:54-82 | Setting more bits never turns a "maybe" into a "no". |
| Bloom.ClearSaysNo | attic/internal/pkg/section/bloomfilter.go:54-67 | A filter without a set bit answers "no" to every entry if and only if the algorithm is one of the four. |
| Psharding.PRangeIsOpen | attic/internal/pkg/section/pshard.go:193-197 | The range test of a pshard is membership in an open range. |
| Psharding.AddAssertion | attic/internal/pkg/section/pshard.go:250-266 | Succeeds exactly for matching context and zone, a name in range and supported hashes; then the filter says "maybe" to every type of the assertion, keeps all bits, and every bit it gained is a probe of the name with one of these types. |
| Psharding.GroupAssertionsToPshards | attic/internal/pkg/publisher/publisher.go:253-304 | Succeeds exactly if all entries can be hashed; then the pshards have the ranges of the pieces and filters of the configured size; each says "maybe" to all of its piece, and every bit set in it is a probe of some name and type of its piece; where no name is empty each has the configured number of names, the last one at most that; and the assertions are left without zone and context. |
| Psharding.NoFalseNegatives | attic/internal/pkg/publisher/publisher.go:253-304 | A pshard whose range holds a name of the zone says "maybe" to every type that name has. |
| Psharding.StrangersAreDenied | attic/internal/pkg/publisher/publisher.go:253-304 | A pshard answers "no" to an entry if and only if one of the entry's probes is none of those of the names and types of its piece. |
| Lookup.IntersectIsSymmetric | attic/internal/pkg/section/interval.go:4-23 | Intersection is symmetric, over all six cases. |
| Lookup.IntersectPoint | attic/internal/pkg/section/interval.go:4-23 | On a non-empty point it is membership in the open range, except that a range whose two ends are one name holds just that name. |
| Lookup.Get | attic/internal/pkg/cache/negAssertionCache.go:121-140 | Whatever order the map yields, the result holds exactly the cached sections that intersect the name, each once. |
| Lookup.LookupIsExact | attic/internal/pkg/cache/negAssertionCache.go:121-140 | Once all shards of a zone are cached, looking up any non-empty name finds a covering shard, and the name is in the zone if and only if each shard found contains it, provided no two of the shards share a hash. |
| Validity.GetOverlapValidity | attic/internal/pkg/util/rainslibUtil.go:159-180 | The scan over sorted windows returns zeros if there is no window or some window starts after all before it have ended, and otherwise the first start and the latest end. |
| Validity.NoGapCovers | attic/internal/pkg/util/rainslibUtil.go:170-179 | Without a gap every instant between the two ends is in some window, whatever the windows. |
| Validity.OverlapIsExact | attic/internal/pkg/util/rainslibUtil.go:159-180 | For any sorted windows, also ones that end before they start: an instant between the two ends is uncovered if and only if some gap is an inner one, with something ending after it opens and something starting after the first start; so the report is right if and only if there is no gap or some gap is inner. |
| Validity.ForwardWindowsAreReportedRight | attic/internal/pkg/util/rainslibUtil.go:159-180 | For windows that do not end before they start the union is reported if and only if every instant between its ends is covered. |
| Validity.BackwardWindowHidesUnion | attic/internal/pkg/util/rainslibUtil.go:170-178 | Two inputs with a window that ends before it starts for which a covered union is reported as a gap. |
| Validity.UpdateValidity | attic/internal/pkg/section/util.go:10-34 | The branches compute the next start and end, where a start of zero counts as not set. |
| Validity.UntilIsMax | attic/internal/pkg/section/util.go:23-31 | From unset, the end is the latest of the capped ends, or zero. |
| Validity.SinceIsMinimum | attic/internal/pkg/section/util.go:12-22 | From unset, the start is the earliest of the capped starts if and only if that is not zero, or the last one is zero. |
| Validity.EndIgnoresOrder | attic/internal/pkg/section/util.go:23-31 | Every order of the windows gives the same end. |
| Validity.StartOrderIsExact | attic/internal/pkg/section/util.go:12-22 | Every order of the windows gives the same start if and only if the earliest start is not zero or all starts are zero. |
| Validity.OrderCanMatter | attic/internal/pkg/section/util.go:12-22 | Two windows for which the order changes the start. |
| SigCheck.GetPublicKey | attic/internal/pkg/siglib/rainsSiglib.go:349-356 | The first key whose validity overlaps the signature's, or none exactly if no key does. |
| SigCheck.KeptMembers | attic/internal/pkg/siglib/rainsSiglib.go:83-98 | What is kept are exactly the signatures that have not expired. |
| SigCheck.CheckSectionSignatures | attic/internal/pkg/siglib/rainsSiglib.go:58-107 | Succeeds exactly without signatures, or if the fields are fine, some signature has not expired, every signature has a key list, and each unexpired one verifies with the first key whose validity overlaps its own; then the unexpired ones are kept, the end is the latest over them of the least of key end, signature end and cap, and the start is set from the later of key start and signature start. |
| SigCheck.CheckedValidity | attic/internal/pkg/siglib/rainsSiglib.go:58-107 | After success from unset validity, in terms of keys and signatures: no kept signature with its first overlapping key has a later least of key end, signature end and cap, and one has exactly the end, or it is zero; the start likewise is the earliest of the later of key start and signature start, if and only if that is not zero or comes last. |
| SigCheck.SignatureOrderIsExact | attic/internal/pkg/siglib/rainsSiglib.go:58-107 | Every order of the signatures gives the same end; every order gives the same start if and only if the earliest accepted start is not zero or all of them are. |
| SigCheck.OutcomeIgnoresOrder | attic/internal/pkg/siglib/rainsSiglib.go:58-107 | Whether some signature is kept, and whether every signature is good, so whether checking succeeds, does not depend on their order. |
| ZoneWords.ShowRead | attic/internal/pkg/zonefile/zoneFileEncoder.go:347-355 | Printing a 64-bit number in decimal and reading it gives the number. |
| ZoneWords.HexRound | attic/internal/pkg/zonefile/zoneFileEncoder.go:117-117 | Printing bytes in hexadecimal and reading them gives the bytes. |
| ZoneWords.LexSpell | attic/internal/pkg/zonefile/zoneFileParser.y:738-834 | The lexer recognises every keyword by its spelling. |
| ZoneEncoder.EncodeAssertion | attic/internal/pkg/zonefile/zoneFileEncoder.go:122-146 | The loops over objects and signatures print the assertion as specified, with or without zone and context. |
| ZoneEncoder.EncodeZoneOrShard | attic/internal/pkg/zonefile/zoneFileEncoder.go:19-64 | Head, range ends, assertions and signatures are printed in order, no parentheses without signatures. |
| ZoneRoundTrip.ObjectRound | attic/internal/pkg/zonefile/zoneFileParser.go:1124-1389 | Parsing a printed object of any of the fourteen types gives it back in normal form and leaves what follows. |
| ZoneRoundTrip.ObjectsRound | attic/internal/pkg/zonefile/zoneFileParser.go:1112-1123 | The same for every non-empty list of objects up to its closing bracket. |
| ZoneRoundTrip.SigsRound | attic/internal/pkg/zonefile/zoneFileParser.go:1474-1521 | The same for the signatures of a section, present or not. |
| ZoneRoundTrip.AssertionRound | attic/internal/pkg/zonefile/zoneFileParser.go:1085-1111 | The same for an assertion; a contained one loses its zone and context. |
| ZoneRoundTrip.SectionRound | attic/internal/pkg/zonefile/zoneFileParser.go:932-1042 | The same for zones, shards, pshards and assertions; open range ends come back as range marks. |
| ZoneRoundTrip.SectionsRound | attic/internal/pkg/zonefile/zoneFileParser.go:894-931 | Parsing the printed tokens of any list of well-formed sections gives their normal forms. |
| ZoneRoundTrip.SectionsPrintTheSame | attic/internal/pkg/zonefile/zoneFileEncoder.go:19-355 | The normal form prints the same tokens. |
| ZoneRoundTrip.WordsRound | attic/internal/pkg/zonefile/zoneFileEncoder.go:19-355 | On words: for well-formed sections whose own words are free of keywords, white space and comment signs, lexing and parsing the printed words gives the normal forms, and these print the same words. |
| ZoneSplit.RemoveComments | attic/internal/pkg/zonefile/zoneFileParser.y:849-862 | One pass over the text gives the words of all lines in order, without what follows a comment sign on a line. |
| ZoneText.ObjectSpells | attic/internal/pkg/zonefile/zoneFileEncoder.go:150-233 | The padded text of a well-formed object of any of the fourteen types splits into the words of its tokens. |
| ZoneText.AssertionSpells | attic/internal/pkg/zonefile/zoneFileEncoder.go:124-146 | So does the text of an assertion, on one line or several, at any indentation, with or without zone and context, with none, one or several signatures. |
| ZoneText.SectionSpells | attic/internal/pkg/zonefile/zoneFileEncoder.go:19-92 | So does the text of zones, shards, pshards and assertions. |
| ZoneText.TextRound | attic/internal/pkg/zonefile/zoneFileIO.go:94-157 | From text to text: for any list of well-formed sections whose own words are plain, encoding, dropping comments, splitting, lexing and parsing gives the normal forms, and encoding these gives the same text. |

## Left out

- DsaLog: the struct around a cached tree is a value in the map, as nothing else points to it; the tree is an object.
  The branch for a struct without a tree is left out, as every struct is made with one.
- Database reads that fail are treated as missing records, and serialisation always succeeds.
- DSRetrieve, GetDSAfromAggregators: a log's accumulators change to any well-formed ones in one step of `Delegation`.
- Delegations surviving eviction or restart: AddDelegationStatus starts a parent that is not cached from nothing; the
  model does the same and claims no more.
- Delegation: sessions and handlers are functions on values, not objects with fields; certificates, CSR parsing, SCTs
  and transport are parameters or absent, so agreement is stated on digests, not on the fields hashed into them.
- NegCacheSteps: RemoveZone is not among the concurrent operations, because it takes a value from the cache before
  locking it; the order in which values are swept and which evictable key is offered are arbitrary.
- NegCacheSteps: fields and locks are updated by functions on a state value, since interleaved steps cannot be written
  as methods.
- AssertionCache: the keys of an assertion are given as a list of strings; the way they are put together, Get with its
  search up the name hierarchy, and Checkpoint are not modelled.
- PendingQueries: the key of a message is a parameter; reuse of a token in use is outside the run theorem, as the code
  relies on fresh tokens. The clock is read once for a whole sweep.
- Psharding.GroupAssertionsToPshards: requires a positive filter size, since the code stops at run time with an empty
  filter.
- Sharding.GroupAssertionsToShardsByNumber: requires a positive number of names, which DoSharding checks before the
  call.
- Bloom: BloomFilter.CompareTo and Pshard.IsNonexistent, whose tests do not match their documentation.
- ShardText: the value of an object and a signature are given as they are printed, and a character stands for a byte;
  `ZoneText` prints them from the objects themselves.
- Sorting of assertions and windows: the sorted result is an input.
- SigCheck: an absent section or key map, marshalling failures and the re-check of contained assertions.
- ZoneParser: the generated parse tables, error recovery and the global output variable; the parser descends over
  tokens and returns nothing on a syntax error. It is a function on token lists, where the code keeps a lexer position
  and a stack.
- ZoneText.TextRound: address texts are words, free text is a list of words printed with one space between them, and
  white space beyond ASCII does not separate words. A section without signatures has the nil list; an empty list that
  is not nil is printed as empty parentheses.
- ZoneSplit.RemoveComments: reads lines of any length, where the code's scanner ends at a line too long for its
  buffer, and returns the words of all lines as one list.
- The zone key, connection and capability caches, libresolve, the query engine, cryptography, CBOR, configuration and
  command lines.
