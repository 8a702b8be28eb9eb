# go-ucanto: delegation proofs, their validation and their exchange

A Dafny model of the two algorithmic cores of go-ucanto and of the small codecs and stores under
them, with proofs of what they promise.

* **The validator** searches a graph of delegations for a chain that authorizes a capability. A
  claim validates a pool of delegations; validating one may open an attestation session, which is
  a claim on a smaller pool; authorizing a match descends into the proofs its delegation embeds.
  The search is compared with proof trees that are defined without any search.
* **Partitioned retrieval** sends an invocation one delegation at a time to a server that walks
  the graph through the request and a bounded cache, and answers with what is missing.

Both stand on one graph (`Graph`). A link is the content it addresses, so hashing is injective and
every proof graph is acyclic; `Rank` puts each proof strictly below the delegation citing it.

| file | role |
|---|---|
| `Graph`, `Capabilities`, `Validation` | tokens, links and views; matching; what the search computes, as functions |
| `Validator`, `Pruner`, `Exporter`, `Retrieval` | the loops and mutable objects of the source, proved to compute those functions |
| `ProofTrees`, `SessionTrees`, `ValidatorTheorems`, `ChainTheorems` | proof trees without search; soundness, completeness, monotonicity, chains |
| `Reports`, `Records` | what a failure reports and a success records, list by list |
| `Patterns`, `AuthorityProofs` | what a delegation by pattern is worth, and one of attesting |
| `ProofOrder`, `Revocation` | which chain the search finds, and when that is enough under revocation |
| `Boundaries`, `Embedding` | what added proofs and added blocks do to the others |
| `Pruning`, `PruningTheorems`, `PruningBlocks` | the reduced proof set, why it is enough, and what it carries |
| `Minimality`, `PruningLimits`, `PruningSurplus` | exactly when it is minimal, and two drafts for which it is not |
| `Scenario` | the cast of the concrete inputs |
| `Blockstore`, `Export`, `Archive` | the insertion-ordered store, export and archives |
| `DelegationCache`, `Extraction`, `Requests` | the cache, the server's walk, and a request in detail |
| `Negotiation`, `Departure` | the client, whole sessions, and when they can start |
| `Messages`, `BatchExecutor` | receipts and every interleaving of the batch executor |
| `Varint`, `Encodings`, `Car`, `CarReading` | varint-tagged encodings, CAR streams, and what reading any bytes yields |

In two places the code and its comments differ, and the model follows the code. Pruning is
described as selecting a minimal set (validator/proof_pruning.go:15, 84, 142), but it returns
every delegation of the first authorization found. That is more than is needed for three reasons:
deeper links of the chain come back as direct proofs too (`PruningLimits.PruningIsNotMinimal`); a
draft may itself issue a capability that it lists after a delegated one, and then it needs no
proof at all (`Minimality.OwnedDropsAll`); and a session records every other session of its pool,
needed or not (`PruningSurplus.SurplusOnFirstLevel`). Without sessions `Minimality.MinimalIff`
says exactly when the set is minimal, in terms of the draft; with sessions
`Minimality.DroppableIff` says exactly which members are not needed. `Access` is described as
exploring every possible option (validator/lib.go:244-246), but a claim looks at one chain per
matching capability, which matters as soon as chains are revoked (`Boundaries.RevocationCanHide`,
`ProofOrder.FirstChainDecides`, `Revocation.CompleteIffOneChainEach`). Note also that below the top
of a chain the caveats compared are the claimed ones on both sides (validator/capability.go:283-287).

"Plain" below means that nothing is revoked and no DID resolves to a key, which is how the proof
pruner runs the validator.

## Model

| member | source | states |
|---|---|---|
| `ValidatorTheorems.ClaimIffProvable` | validator/lib.go:258-318 | When no DID resolves to a key, and revoking a claim or a session depends on its own match, a claim succeeds if and only if an unrevoked proof tree exists whose session trees are unrevoked too. The tree is defined without search and its sessions may use any attestation of the pool: first success at every level, and the ban on a delegation justifying itself, lose no chain |
| `ValidatorTheorems.AuthorizeIffProvable` | validator/lib.go:483-508 | The same below a match, whatever is revoked apart from sessions: its delegation's aligned proofs authorize the claimed value if and only if a tree over them exists |
| `SessionTrees.LooseToStrict` | validator/lib.go:468-477 | Any tree whose sessions use the delegation under verification can be rebuilt, from the same match, into one whose sessions never do: the filter that makes sessions end costs nothing |
| `ProofOrder.FirstChainDecides` | validator/lib.go:286-315 | When revoking a claim depends on its chain, it succeeds if and only if some tree is unrevoked that stops where it may and takes, at every level, the first capability in proof order below which anything can be proved; no chain further down the order is looked at |
| `Revocation.CompleteIffOneChainEach` | validator/lib.go:301-312 | The search is complete for every checker that revokes chains, finding an unrevoked tree whenever there is one, if and only if no match has two chains below it |
| `ValidatorTheorems.ClaimMonotone` | validator/lib.go:258-318 | When no DID resolves to a key, and revoking depends on the match, more proofs in the pool never turn a successful claim into a failure, through any depth of sessions |
| `ValidatorTheorems.AuthorizeGrows` | validator/lib.go:483-508 | Showing the same views and more never loses an authorization, even when sessions are revoked by their matches |
| `Embedding.AuthorizeMonotone` | validator/lib.go:483-508 | In a plain context more proofs and more of their blocks on a delegation of the same issuer never lose an authorization, provided no link whose block is gained was answered by the resolver |
| `Embedding.InvocationMonotone` | validator/lib.go:249-318 | Under the same condition an accepted invocation with more embedded proofs is accepted if and only if it is in its time bounds and signed |
| `Embedding.RicherIffChains` | core/delegation/proofs.go:35-46 | One view of a delegation is as rich as another, a condition under which nothing is lost, if and only if every chain of proofs that can be followed from the other can be followed from it |
| `Embedding.AuthorizeKept` | validator/lib.go:548-580 | In a plain context a value authorized through a delegation is authorized through every view as rich, at any depth |
| `Embedding.ClaimKept` | validator/lib.go:258-318 | So is a claim over a pool in which every delegation has a view as rich |
| `Embedding.EmbeddingCanHurt` | core/delegation/proofs.go:35-46 | Without the condition it is false: embedding the block of a proof that the resolver would have answered together with that proof's own proof turns an authorization into a refusal |
| `ProofTrees.ClaimSound` | validator/lib.go:258-318 | In every context, with or without revocation and key resolution, the authorization returned is a valid tree over the resolved proofs, unrevoked with all its sessions |
| `ProofTrees.ClaimComplete` | validator/lib.go:286-315 | When no DID resolves to a key, and revoking depends on the match, one valid tree is enough for the claim to succeed |
| `PruningTheorems.PruningSuffices` | validator/proof_pruning.go:110-139 | The draft issued again with exactly the pruned, re-exported proofs is accepted if and only if it is itself in its time bounds and properly signed |
| `PruningTheorems.AlignedSuffice` | validator/proof_pruning.go:110-139 | The same citing fewer of them: only those delegated to the draft's issuer need be cited, if the blocks of all are carried |
| `PruningTheorems.FirstLevelSuffices` | validator/proof_pruning.go:146-169 | Fewer still: only the first proof and the attestations it was accepted through need be cited |
| `Minimality.MinimalIff` | validator/proof_pruning.go:141-169 | When keys or the authority issued everything below a draft, no member of its pruned set can be dropped if and only if the first provable capability in proof order is one the draft's issuer may issue, or one its first proof's issuer may issue while the draft's may issue none that is claimed; the first tree is defined without search |
| `Minimality.MinimalIffOne` | validator/proof_pruning.go:141-169 | The same for any tree without sessions: the set is minimal if and only if it is empty, or it has one member and the draft's issuer may issue nothing that is claimed |
| `Minimality.DroppableIff` | validator/proof_pruning.go:110-145 | With any sessions, and without a proof resolver, as the pruner runs: one member can be dropped if and only if the draft's issuer may issue a claimed capability or a proof tree for one exists over the other members delegated to that issuer, with the blocks of all at hand, a condition without search |
| `Minimality.OwnedDropsAll` | validator/proof_pruning.go:107-139 | A draft that may itself issue any one of the capabilities claimed, wherever it lists it, needs none of the members of its pruned set |
| `PruningTheorems.MinimalOnlyIf` | validator/proof_pruning.go:141-145 | With sessions, if no pruned proof can be dropped then all of them are on the first level of the tree, and delegated to the draft's issuer; this is necessary, and not enough |
| `PruningLimits.PruningIsNotMinimal` | validator/proof_pruning.go:141-145 | The documented minimality is false: a concrete draft cites one proof and is accepted with it, pruning returns two, and the second need not be cited |
| `PruningSurplus.SurplusOnFirstLevel` | validator/lib.go:268-307 | It is false on the first level too: a concrete draft that may issue nothing itself is returned an attestation of a bystander, which stands on the first level and is delegated to the draft's issuer, and need not be cited |
| `PruningTheorems.PrunedKeeps` | validator/proof_pruning.go:146-169 | The pruned set holds exactly the delegations of the authorization tree other than the draft, each once, each carrying its own block |
| `PruningBlocks.PrunedCarryOwnBlocks` | validator/proof_pruning.go:122-133 | Without a proof resolver, as the pruner runs, each pruned proof carries exactly the blocks reached from it through the draft's blocks: its whole chain, and nothing of the candidate pool |
| `PruningBlocks.PrunedCarryChains` | validator/proof_pruning.go:122-133 | With one, exactly those reached from it through the view in which it was found |
| `PruningBlocks.PrunedInOrder` | validator/proof_pruning.go:151-167 | The pruned set begins with the proofs of the chain, in order from the draft down to the root of authority |
| `PruningBlocks.PrunesIff` | validator/proof_pruning.go:110-139 | Without a resolver pruning succeeds if and only if the draft is accepted and no proof used leads to a block that is no token |
| `PruningBlocks.PruningFailsWith` | validator/proof_pruning.go:110-139 | It fails with the report of the claim if that failed, and with a proof that cannot be exported otherwise |
| `PruningTheorems.PrunedAreProofs` | validator/proof_pruning.go:110-139 | No duplicates, never the draft itself, and only delegations reachable from the draft's proofs |
| `ChainTheorems.AccessSound` | validator/lib.go:249-252 | Whatever CanIssue is, the chain returned is unrevoked and starts at the invocation with the requested ability; at every edge the proof is cited, its audience is the issuer above, its capability is derived and keeps the ability; every node is in time, and signed or accepted through an unrevoked session that attests exactly it on an accepted resource, whose root may issue that; the last issuer may issue the capability. Each such session is sound in the same sense, in time and signed or attested at each of its own nodes, to any depth |
| `ChainTheorems.AccessOwned` | validator/lib.go:24-26 | When CanIssue is IsSelfIssued, the last issuer is the resource itself, and every node that is not signed has a sound session that attests it and ends with the authority, or a principal it delegated `ucan/attest` to |
| `ChainTheorems.AccessInTime` | validator/lib.go:36-45 | With the standard time check every delegation of the returned chain is neither expired nor early |
| `ChainTheorems.TimeCheckIff` | validator/lib.go:36-45 | The standard check passes exactly the tokens neither expired nor early, and names the bound missed, expiration first |
| `ChainTheorems.RootOfAuthority` | validator/capability.go:267-341 | With default derivation, self-issuing and an identity resource reader, every node of the chain is claimed on one resource, the DID of the last issuer, and each delegation names it literally or as `ucan:*`; a DID ending in a star is excluded because it would read as a pattern |
| `ChainTheorems.SessionSoundness` | validator/lib.go:361-408 | A delegation whose issuer is neither a key nor the authority passes only by a resolved key, or through a different delegation of the pool that validates, attests exactly this link on the DID of the authority or of an audience that it delegated attesting to, and is itself authorized |
| `ChainTheorems.FailureReportComplete` | validator/lib.go:258-318 | When a claim fails, proofs split into reported faults and valid ones, and the capabilities of the valid ones number exactly the unknowns, errors, failed proofs and revoked chains reported |
| `Reports.ClaimInvalid` | validator/lib.go:258-318 | Among the faults of a failed claim, links are unavailable if and only if nobody resolves them, proofs are there for exactly the fault they are refused for, and chains are revoked if and only if some match was granted through them and they are revoked |
| `Reports.ClaimMismatches` | validator/lib.go:258-318 | Its unknowns and errors are exactly those of the capabilities shown by valid proofs that do not answer |
| `Reports.ClaimFailed` | validator/lib.go:286-315 | Its failed proofs are exactly those of the matches that may not be issued as they stand and are not authorized |
| `Reports.RefusedWhy` | validator/lib.go:345-417 | A delegation is refused with an error if and only if that error is the case: which time bound it misses, whether its session escalates, its key does not resolve, or its signature is unverifiable or wrong under the verifier it comes down to |
| `Reports.AuthorizeReportComplete` | validator/lib.go:483-508 | Below a match too each cited proof is reported or valid, and each capability of the valid ones is unknown, malformed, escalated or failed |
| `Reports.AuthorizeProofErrors` | validator/lib.go:548-600 | The proof errors are exactly the cited links that do not resolve, the proofs not delegated to the issuer, and those of the others that are refused, with their fault |
| `Reports.AuthorizeMismatches` | validator/lib.go:483-508 | Unknowns and errors are exactly those of the capabilities shown that do not answer the claimed one, and the report is on the match at hand |
| `Reports.AuthorizeFailed` | validator/lib.go:483-508 | Failed proofs are exactly those of the matches that nothing proves |
| `Records.ClaimRecords` | validator/lib.go:268-312 | What a claim returns records every session of its pool, and below the match what authorizes it unless it may be issued as it stands |
| `Records.ProofRecords` | validator/lib.go:483-522 | Every proof further down records exactly the sessions of its pool that attest it, none made for others |
| `Records.SourcesInOrder` | validator/lib.go:268-284 | Capabilities are offered in the order of the proofs, so first success is that of the first proof |
| `ValidatorTheorems.FallbackIff` | validator/lib.go:376-405 | With nothing revoked: a delegation that needs a session passes if and only if its session succeeds, or its resolved key does and no valid attestation in the pool names it |
| `ValidatorTheorems.FailedIffMatched` | validator/lib.go:288-317 | With nothing revoked, a failed claim reports failed proofs if and only if some capability matched; this is the test that closes the key fallback |
| `Boundaries.AttestationCanHurt` | validator/lib.go:379-386 | Monotonicity is false when DID keys resolve: a concrete pool accepted alone is refused once an attestation without authority is added |
| `Boundaries.SessionIff` | validator/lib.go:427-480 | With nothing revoked, a session succeeds if and only if a valid attestation of its pool names the delegation, on the DID of the authority or of the audience of an authority proof for `ucan/attest` on it, and its issuer may attest, or was delegated it |
| `AuthorityProofs.AttestsIff` | validator/lib.go:430-466 | A capability attests a delegation if and only if it is `ucan/attest` for exactly its link, on one of those DIDs |
| `AuthorityProofs.DelegatesAttestingIff` | validator/lib.go:430-466 | It delegates that attestation if and only if it covers its ability and resource, and is read on one of those DIDs |
| `AuthorityProofs.AcceptedIffLet` | validator/lib.go:430-440 | A concrete session, attested by another service on its own DID, is accepted if and only if that service is the audience of the authority's proof; for every other audience it is refused |
| `Boundaries.VerdictUnchanged` | validator/lib.go:345-408 | With nothing revoked, whether or not keys resolve, a proof that attests nothing in a pool changes no verdict in it, through any depth of sessions |
| `Boundaries.OrdinaryProofsSafe` | validator/lib.go:258-318 | So adding such a proof, ordinary or attestation, never loses a claim |
| `Boundaries.LostIffNamedInVain` | validator/lib.go:376-405 | An attestation added that names one member of the pool loses that member if and only if it was accepted by its resolved key alone and the attestation is valid, on an accepted resource, and not allowed |
| `Boundaries.VerdictIff` | validator/lib.go:376-405 | For any number of attestations naming any number of members, with nothing revoked: a delegation in time that needs a session passes if and only if a valid attestation of its pool names it and is allowed to, or none names it and its resolved key verifies |
| `Boundaries.ClaimIffSupported` | validator/lib.go:258-318 | With nothing revoked, a claim succeeds if and only if an accepted member of the pool has a capability that answers it and may be issued or is authorized |
| `Boundaries.ClaimLostIff` | validator/lib.go:258-318 | So adding a proof loses a claim if and only if every member of the larger pool that supports the claim is refused there |
| `Boundaries.RevocationCanHide` | validator/lib.go:301-312 | Completeness is false under revocation: a concrete invocation is refused although an unrevoked tree for it exists |
| `Boundaries.DerivesChainsIff` | validator/capability.go:327-341 | Default derivation composes below a given pair of capabilities unless the upper resource is the lower, star-ended resource with one more star, and then it does not |
| `ProofTrees.SignedIffKeyVerifies` | validator/lib.go:361-417 | A delegation is signed if and only if its signature verifies under a key speaking for its issuer: the one in its did:key, the authority's, or the did:key its DID resolves to; a parsed key must name the issuer itself |
| `Capabilities.AbilityCoveredIff` | validator/capability.go:302-310 | A delegated ability resolves to the claimed one if it is equal, a lone star, or the claimed one's namespace followed by a star, and to none otherwise |
| `Capabilities.DefaultAnswerIff` | validator/capability.go:267-341 | When resources are read as they stand and derivation is the default, a delegated capability answers a claim if and only if it covers the ability, and the resource literally, as `ucan:*`, or as a stem with a star. The value is on the claimed resource for `ucan:*` and on the delegated one otherwise, and its caveats are what is read from the claimed ones. On an empty claimed resource `ucan:*` does not answer |
| `Capabilities.AnswersBelowIff` | validator/capability.go:267-293 | For any readers and derivation: it answers if and only if it covers the ability, its resource, or the claimed one for `ucan:*`, is read, the claimed caveats are read, and the value derives |
| `Capabilities.AnswersTopIff` | validator/capability.go:223-241 | At the top of a claim a capability answers if and only if its ability is the one described and both readers accept it |
| `Capabilities.UnansweredWhy` | validator/capability.go:77-100 | A capability is unknown if and only if it is of another ability, malformed if and only if a reader refuses it, and escalated, with the value compared, if and only if that does not derive |
| `Patterns.CoveredAuthorizes` | validator/capability.go:267-341 | Any proof that covers what is claimed, in time and signed by somebody who may issue the value, authorizes it |
| `Patterns.WildcardAccepted` | validator/capability.go:320-325 | A concrete invocation on the owner's resource is accepted with the owner's delegation of `ucan:*` |
| `Capabilities.SelectFinds` | validator/capability.go:77-100 | Selection misses nothing: every source that answers the claim becomes a match |
| `Capabilities.SelectReports` | validator/capability.go:243-259 | What selection reports as unknown, or as an error, is exactly what some source failed to answer with |
| `Capabilities.SelectConcat` | validator/capability.go:243-259 | Matches, errors and unknowns are each listed in the order of the sources |
| `Validator.Claim` | validator/lib.go:258-318 | The source's loop, stopping at its first granted chain and collecting failures, returns the authorization or report of the specification |
| `Validator.TryMatches` | validator/lib.go:291-317 | The loop over matches returns the first attempt granted, or a report of all of them in order |
| `Validator.ResolveProofs` | validator/lib.go:324-339 | Splits the proofs, in order, into resolved delegations and links without one |
| `Validator.VerifyAuthorization` | validator/lib.go:361-408 | Key, authority, session and resolved key are tried as the specification says |
| `Validator.VerifySession` | validator/lib.go:427-480 | A session is a claim for this link's attestation, on the resources of the authority and its attestors, over the attestations of the pool other than the delegation itself; ends by rank of the pool, then its size |
| `Validator.AttestationResources` | validator/lib.go:429-440 | The loop over the authority's proofs gathers the audiences of those for `ucan/attest` on the authority, and then the authority |
| `Validator.SessionProofs` | validator/lib.go:468-477 | The filter keeps exactly the session pool, in order |
| `Validator.Authorize` | validator/lib.go:483-508 | The recursion into embedded proofs returns what the specification says, and ends because proofs rank below the delegation citing them |
| `Validator.ResolveSources` | validator/lib.go:548-600 | Sources, sessions and errors of a delegation's proofs: unresolved, then misaligned, then refused |
| `Validator.SelectSources` | validator/capability.go:243-259 | The loop partitions sources into matches, errors and unknowns |
| `Validator.Access` | validator/lib.go:249-252 | Access is the claim on the invocation alone |
| `Pruner.Walker.Walk` | validator/proof_pruning.go:151-167 | The recursive closure with its seen set adds exactly the tree's delegations not held yet, in visiting order |
| `Pruner.PruneProofs` | validator/proof_pruning.go:110-139 | Claim, collect, drop the draft, re-export each into a store of its own, as specified |
| `Negotiation.NegotiationSucceeds` | client/retrieval/connection.go:179-273 | With a least-recently-used cache of capacity at least n for n distinct proofs, whatever it holds, the server extracts the whole invocation after at most n+1 requests, holding every block below it; after exactly n+1 when the cache holds none of it and nothing is attached to the invocation |
| `Negotiation.NegotiatesIffRoom` | server/retrieval/cache.go:12-42 | That capacity is exact: without attachments a session succeeds if and only if the cache has room for n delegations, so the default of 100 bounds the proofs that can be negotiated |
| `Departure.StartIff` | client/retrieval/connection.go:179-210 | A client can take an invocation apart if and only if it has proofs and everything below it is a token that is attached or reached through its own blocks |
| `Departure.StartIffEmbedded` | client/retrieval/connection.go:179-210 | Without attachments, if and only if it has proofs and all of them, to any depth, are embedded |
| `Departure.EveryInvocationNegotiates` | client/retrieval/connection.go:179-273 | So every such invocation gets through whenever the cache has room for what is below it, within one request more than that; without attachments in exactly that many from a cold cache, and never with less room |
| `Departure.SendsWhatIsAsked` | client/retrieval/connection.go:254-271 | After the invocation, each delegation sent is the first that the answer before it asks for, and the client stops only for want of an answer or of a part it still holds |
| `Departure.SessionIsRun` | client/retrieval/connection.go:212-272 | Given the answers of a server with that cache, the client sends one delegation a round, and is accepted if and only if the invocation is extracted |
| `Negotiation.MessageCarries` | client/retrieval/connection.go:275-292 | A request carries exactly what is linked below its part in the part's own store |
| `Negotiation.AnyServer` | client/retrieval/connection.go:189-272 | Against any answers at all the client sends the invocation first, then only delegations below it, none twice: at most n+1 requests |
| `Negotiation.RunConserves` | client/retrieval/connection.go:212-272 | For every list of answers, what has been sent and what is still held are disjoint and together are exactly the invocation and everything below it |
| `Negotiation.StartsWithAll` | client/retrieval/connection.go:189-210 | The parts prepared are exactly the delegations reachable from the invocation, each alone and under its own link |
| `Extraction.ExtractIffComplete` | server/retrieval/server.go:363-428 | An invocation is extracted if and only if everything reachable below it is at hand and decodes to a token, and the view returned then holds every reachable block |
| `Requests.ExtractedHolds` | server/retrieval/server.go:414-428 | The view of an extracted invocation holds exactly the blocks of the message, what is below the invocation, and what was attached to parts that came from the cache |
| `Extraction.WalkFinds` | server/retrieval/server.go:369-402 | The walk, with no record of what it visited, visits exactly the links reachable through what is at hand, asks for exactly the unavailable frontier, and marks exactly those that came with the message |
| `Requests.WalksByLevels` | server/retrieval/server.go:369-402 | The walk is breadth first: links are visited and missed level by level, in order and as often as they are cited |
| `Requests.AsksByLevels` | server/retrieval/server.go:404-412 | A request that asks for proofs asks for all that are missing, in that order |
| `Extraction.WalkStops` | server/retrieval/server.go:384-388 | The walk is stopped by an undecodable block if and only if one is reachable |
| `Extraction.VisitLightens` | server/retrieval/server.go:373-402 | Each step makes the worklist lighter, a link weighing one more than its proofs together: the walk ends although it may visit a link many times |
| `Extraction.WalkRefreshes` | server/retrieval/server.go:390-399 | A walk changes no entry of the cache and leaves every delegation it took from it among the most recently used |
| `Extraction.SeenSurvive` | server/retrieval/server.go:404-412 | After a round asking for proofs, everything the walk visited is cached: no insertion evicted any of it |
| `Requests.LastSurvive` | server/retrieval/server.go:404-412 | When not all of it fits, what the walk met last stays |
| `Requests.OthersAddNothing` | server/retrieval/server.go:363-428 | A request that is answered otherwise changes no entry of the cache |
| `DelegationCache.AddKeeps` | server/retrieval/cache.go:23-26 | An insertion evicts no recently used entry as long as those and the new one fit |
| `DelegationCache.TouchKeeps` | server/retrieval/cache.go:18-21 | A hit evicts nothing and joins the most recently used |
| `DelegationCache.PutThenGet` | server/retrieval/cache.go:18-26 | What is put is found, in place of what was there; whatever else is still cached is found as it was, and a hit changes nothing that is found |
| `Extraction.ExtractKeepsValid` | server/retrieval/server.go:363-428 | No request makes the cache exceed its capacity or hold two entries for one link |
| `DelegationCache.MemoryDelegationCache.Get` | server/retrieval/cache.go:18-21 | Finds the entry for a link if there is one, which becomes the most recently used |
| `DelegationCache.MemoryDelegationCache.Put` | server/retrieval/cache.go:23-26 | The entry becomes the most recently used, replacing its old version or, in a full cache, the least recently used entry |
| `DelegationCache.MemoryDelegationCache.constructor` | server/retrieval/cache.go:34-42 | Empty, with the default capacity when the size is below one |
| `Retrieval.RetrievalServer.ExtractInvocation` | server/retrieval/server.go:363-428 | The worklist loop over the live store and cache returns the specified outcome and leaves the specified cache |
| `Retrieval.RetrievalServer.WalkGraph` | server/retrieval/server.go:369-402 | The loop finds what the walk's specification says, in order |
| `Retrieval.PrepareParts` | client/retrieval/connection.go:179-210 | The queue-driven loop prepares the specified parts |
| `Retrieval.SendPartialInvocations` | client/retrieval/connection.go:212-272 | The unbounded loop sends the specified links for any run of answers, and succeeds if and only if the last request got an accepting answer |
| `Export.ExportCovers` | core/delegation/delegation.go:165-213 | An export lists exactly the blocks reachable from its root through available links that are not omitted |
| `Export.ExportIff` | core/delegation/delegation.go:165-213 | There is an export if and only if all of those decode to tokens |
| `Export.ExportCounts` | core/delegation/delegation.go:165-213 | Each is listed once for every way it is reached |
| `Export.ExportedCovers` | core/delegation/delegation.go:199-212 | With attachments, exactly those and the attachments |
| `Export.ExportedAround` | core/delegation/delegation.go:199-212 | Attachments stand right before the root of the export without them |
| `Export.ExportBottomUp` | core/delegation/delegation.go:165-213 | Every included proof precedes each block citing it, and the root comes last |
| `Export.ExportIdempotent` | core/delegation/delegation.go:165-213 | Without attachments, a store rebuilt from an export, whatever it omitted, exports the identical sequence |
| `Exporter.ExportDelegation` | core/delegation/delegation.go:165-213 | The recursive generator over the store yields the specified sequence, attachments after proofs and before the root, or stops on an undecodable proof |
| `Archive.ArchiveRoundTrip` | core/delegation/delegation.go:228-289 | Without attachments, extracting an archive gives back the root link and the identical export |
| `Archive.ArchiveBottomUp` | core/delegation/delegation.go:228-249 | An archive lists proofs before what cites them, then the root, then the descriptor |
| `Archive.ExtractIff` | core/delegation/delegation.go:251-289 | An archive is extracted if and only if its one root is the descriptor of a token among its blocks, and then to that token over all of them |
| `Archive.NotExtractedWhy` | core/delegation/delegation.go:251-289 | The error says which of these is missing |
| `Archive.ExtractsArchive` | core/delegation/delegation.go:228-289 | With or without attachments, extraction gives back the token with a store of exactly the archived blocks and nothing attached |
| `Archive.SurvivesIffReached` | core/delegation/delegation.go:199-212 | An archived block is exported again if and only if it is linked below the root; other attachments are dropped |
| `Archive.AttachmentLost` | core/delegation/delegation.go:199-212 | A concrete attachment that is archived and extracted, and gone from the next export |
| `Blockstore.BlockStore.Put` | core/dag/blockstore/blockstore.go:55-68 | A new block goes last, one already stored keeps its place; keys stay distinct and address their blocks |
| `Blockstore.BlockStore.Get` | core/dag/blockstore/blockstore.go:70-74 | Finds a block exactly when it is stored |
| `Blockstore.BlockStore.Iterator` | core/dag/blockstore/blockstore.go:76-92 | Yields the blocks in insertion order |
| `Blockstore.WriteInto` | core/dag/blockstore/blockstore.go:186-194 | Adds all of a view's blocks after those already there |
| `Blockstore.StoredAllHas` | core/dag/blockstore/blockstore.go:117-148 | Filling a store loses no block and invents none |
| `Blockstore.DistinctInOrder` | core/dag/blockstore/blockstore.go:55-92 | A new store lists blocks in the order of their first occurrence, each once |
| `BatchExecutor.BatchConserves` | server/server.go:271-312 | If all runs succeed, in every completion order the receipts gathered are exactly those made, as often as they were made, repeated invocations included |
| `BatchExecutor.BatchListsIff` | core/message/message.go:73-85 | The message then lists exactly those receipts if and only if runs of the same invocation made the same receipt |
| `BatchExecutor.BatchListsDistinct` | server/server.go:271-312 | In particular when the invocations are distinct |
| `BatchExecutor.BatchAnswers` | server/server.go:271-312 | For distinct invocations each is answered with its own receipt, whatever the completion order |
| `BatchExecutor.BatchFailsIff` | server/server.go:297-309 | A message is built if and only if every run succeeds; otherwise the error returned is that of the run that failed last |
| `Messages.ReportFindsFirst` | core/message/message.go:122-160 | Looking up what was run finds its first receipt, and nothing that was not run |
| `Messages.ListsAllIff` | core/message/message.go:73-85 | The receipts are listed in the order given if and only if receipts for the same run are the same |
| `Messages.ListsAll` | core/message/message.go:73-85 | For different runs the receipts are listed in the order given |
| `Messages.Build` | core/message/message.go:122-160 | The loop keeps a key per receipt and the first value per key |
| `Messages.Get` | core/message/message.go:103-120 | A listed key is found, with its value if it has one |
| `Messages.Receipts` | core/message/message.go:73-85 | The value of every listed key that has one, in order |
| `Varint.VarintRoundTrip` | ucan/crypto/signature/signature.go:111-119 | Every number below 2^63 is read back from its varint, whatever follows it |
| `Varint.DecodesCanonically` | principal/multiformat/multiformat.go:18-35 | Only minimal varints are read: what decodes is the encoding of its value |
| `Varint.EncodesIff` | principal/multiformat/multiformat.go:10-16 | The varint of a number is the one minimal sequence of seven-bit groups, least significant first, that stands for it |
| `Varint.FailsWhy` | principal/multiformat/multiformat.go:18-35 | Reading fails if and only if the bytes end early, the ninth is not the last, or the last is zero and not the first |
| `Varint.PutUvarint` | principal/multiformat/multiformat.go:10-16 | Writes exactly the varint's bytes in place and leaves the rest of the buffer alone |
| `Encodings.SignatureRoundTrip` | ucan/crypto/signature/signature.go:79-125 | Code, size and raw bytes come back; for a non-standard algorithm the raw bytes are followed by its name |
| `Encodings.NewSignature` | ucan/crypto/signature/signature.go:79-87 | The bytes of a standard signature have no name after the raw part |
| `Encodings.NewNonStandard` | ucan/crypto/signature/signature.go:89-99 | Those of a non-standard one have its name, under the code set aside for such |
| `Encodings.NewNamed` | ucan/crypto/signature/signature.go:79-99 | Fills the buffer with code, length, raw bytes and name, in that order and with nothing over |
| `Encodings.TagWith` | principal/multiformat/multiformat.go:10-16 | The buffer holds the tag's varint followed by the bytes |
| `Encodings.UntagIffTagged` | principal/multiformat/multiformat.go:18-35 | Untagging at an offset succeeds with some bytes if and only if tagging those bytes gives what is there |
| `Encodings.UntagFailsWith` | principal/multiformat/multiformat.go:18-35 | It names another tag if and only if that is what is there |
| `Encodings.DidRoundTrip` | did/did.go:83-117 | Every parsed DID is recovered from its bytes; its string is recovered if and only if it is not a `did:key` whose payload carries the tag of another method |
| `Encodings.DecodesIffTagged` | did/did.go:83-94 | Bytes decode, to themselves, if and only if they carry the tag of an Ed25519 or RSA key, or that of another method |
| `Encodings.ParsesIff` | did/did.go:96-117 | Every method but `key` parses to its string under the tag, and a `did:key` if and only if its payload decodes |
| `Car.CarRoundTrip` | core/car/car.go:23-59 | Reading an archive gives the same roots and the same blocks in order, and each block's offset and length locate its bytes in the stream |
| `CarReading.ReadsLeadingFrames` | core/car/car.go:99-141 | Whatever the bytes after the header, every block read matches its identifier and is located in them, the blocks are the leading frames, no intact frame follows, and the reading is ok if and only if nothing does |
| `CarReading.LeadingFramesRead` | core/car/car.go:99-141 | Conversely, intact leading frames not followed by another are what is read |
| `CarReading.ReadsIffFrames` | core/car/car.go:99-141 | So blocks are read to a clean end if and only if the bytes are their frames and each matches its identifier |
| `CarReading.OpensIff` | core/car/car.go:81-98 | An archive opens if and only if it begins with the frame of a version 1 header; its blocks are read from what follows |
| `CarReading.NotOpenedWhy` | core/car/car.go:81-98 | Otherwise the error names the header's version, or says that there is no header |
| `Car.CidArchiveReads` | core/car/car.go:81-141 | The same for identifiers of the CID specification, which delimit themselves |
| `Car.CidEndsItself` | core/car/car.go:122-126 | A CID of either version is delimited by its own bytes, so it can be told from the data after it |
| `Car.CidFormIff` | core/car/car.go:122-126 | Such a CID is a bare SHA-256 multihash, or a version 1 marker, codec, hash code and digest with its length, and nothing else |
| `Car.Encode` | core/car/car.go:23-59 | Writes a frame for the header, of version 1 with these roots, and one for each block, in order |
| `Car.Decode` | core/car/car.go:81-141 | Reads the header, refuses other versions, and starts the running offset at the header's size; then the loop yields the specified blocks, up to a clean end or the first error |

## Left out

- Cryptography, CBOR and JSON, IPLD schemas, base58 and base64, gzip: signature checking, key
  parsing, schema readers and hash checking are parameters; a link is its content.
- The type of tokens has at least one capability; the source indexes the first one without a check.
- DIDs are compared as strings inside the validator, where the source compares decoded DIDs.
- A proof resolver that answers with a different delegation than the link asked for: the resolver
  parameter supplies the blocks of the view, the token is the one behind the link.
- The goroutines of ResolveMatch (validator/lib.go:524-546): every match has a single source, so it
  is ResolveSources.
- Revocation, issuing rules and time are fixed during a claim.
- Concurrent use of the block store and of the delegation cache; each is used by one caller here.
- The block store's error results: its model has none to report.
- In ExtractInvocation the views share one store that grows at the end; the model's views hold the
  blocks of the message, which the exports they yield do not exceed.
- The retrieval handler around the walk: HTTP status codes, headers, content, context cancellation,
  and the message root block in a request, which no delegation links to. A part too large for a
  header, or any other failure of a request, is a server's refusal; sessions assume parts fit.
- Serving several clients from one cache: the round bound and the capacity are for one session.
- Attachments, the exact round count and the exact capacity: an invocation with attached blocks may need
  fewer requests and less room, so both are stated without attachments.
- Run and its handlers (server/server.go:314-359), receipt contents and signatures.
- Building messages from invocations, and memoised receipts (core/message/message.go:57-71, 87-101).
- replaceNoCaveatsCaps and the draft of NewProofPruner (validator/proof_pruning.go:25-84): typed
  caveat defaults; the draft is a parameter. A draft without proofs is answered there before pruning.
- PruningTheorems.MinimalOnlyIf: one direction only; Minimality.MinimalIff is exact without
  sessions, and Minimality.DroppableIff is exact for each member with them.
- Computing a minimal pruned set: the source computes none.
- Attached blocks across a re-export of pruned proofs: views are re-exported with what they yield.
- Encodings.DidRoundTrip: the base58 text of a `did:key` is a payload already decoded, or a failure.
- Car.CarRoundTrip: how a header is written as CBOR and read back is a parameter; an archive whose
  header is not written canonically reads with offsets counted from the canonical size.
- The frame reader behind core/car/car.go is a library: frames are read here as CARv1 lays them out, a
  minimal varint of at most nine bytes and then as many bytes; its size limit, and its laxer reading
  of lengths and of a stream that is cut off right after one, are not part of this model.
- Roots that are not CIDs, which Encode refuses: links are CIDs here.
- Car.Decode: after an error the source's iterator may be asked again; the model stops there.
- NewProofsView's list of written links, ucan.Issue, options and token construction.
- Error messages, stack traces and IPLD renderings of errors: only which list an error lands in.
