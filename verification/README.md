# Verified model of llmcache

llmcache stores the key/value (KV) tensors of prompts under cache ids that an application chooses,
and gives them back to an inference engine when a request names such an id. This project models
its storage tiers, its engine and its two connectors, and proves that what they give back is right.

The model is layered like the program:

- **Storage.** `Lru` says what the bounded in-memory store does: an ordered dictionary, a pin set,
  and an eviction loop that may fail after it has evicted. `Tiers` puts a cold tier behind it, with
  demotion on eviction and promotion on a read. `Recency` and `StoreRuns` state what holds over
  whole runs. `Redis` and `RedisNames` refine the cold tier by named, framed values in a key-value
  server; `Payloads` is the framing.
- **Engine.** `Types` has chunking, fingerprints and the prefix match. `Engine` has registration,
  lookup, load, pinning, expiry and deletion. `Reuse` and `Lifecycle` have their laws over runs.
- **Connectors.** `Transfer` moves payloads in and out of a paged buffer; `Connectors` has what the
  SGLang and vLLM adapters compute; `EndToEnd` has the laws from a save to a later load.
- **Outcomes** says of each operation of engine and connectors when it succeeds, how it fails, and
  exactly what it leaves.
- **Limits** has the places where the simple claim is false of the code: a concrete input for each,
  and the exact condition under which the claim holds. `LatePins` has the one for late pins.

Code that works by updating objects is modelled by classes (`Backends`, `KvCache`, `Transfer`,
`Adapters`, `Redis`). Each of their methods is proved to leave and to return what a function on
values computes; the laws are then proved about those functions. A clock reading is a parameter of
the operation that makes it, a fresh id is a field of the registration's arguments, and an exception
is an error result together with the state the operation leaves behind.

The main results, hardest first:

1. *End-to-end reuse* (`EndToEnd.StoreThenRetrieve`, `EndToEnd.SaveMatchStageLoad`): whatever runs
   in between without writing the id, every destination block covering a reused token holds byte for
   byte what its source block held when it was saved, and the prompts agree on those tokens. A pinned
   prompt is always given back, with all that can be reused (`EndToEnd.PinnedPromptsComeBack`).
2. *Never wrong KV* (`Reuse.NeverWrongKv`, `Reuse.LookupsMatchLatest`), over every store and run.
3. *Pinned caches stay resident* (`Lifecycle.PinnedCachesStayResident`) and *pinned Redis copies
   never get an expiry* (`StoreRuns.ProtectedForever`).
4. *The two tiers refine one plain map* (`StoreRuns.TieredRefinesMap`, `StoreRuns.TieredRepliesAsMap`),
   with the exact effect of puts and gets that raise (`Tiers.TieredPutView`, `Tiers.GetView`).
5. *Exact admission, exact victims, and least recently used over runs* (`Lru.PutAdmittedExactly`,
   `Lru.PutVictimsExactly`, `Recency.VictimsAreLeastRecentlyUsed`).
6. *Descriptors agree with the store* (`Lifecycle.DescriptorsAgreeWithStore`), *expiry is permanent*
   (`Lifecycle.ExpiryIsPermanent`), and the *lookup in closed form* (`Reuse.LookupClosedForm`).
7. *Exact outcomes* of every operation (`Outcomes`), and *exact limits* of what unpinned and refused
   registrations, re-registrations, late pins, failed puts and partly computed prompts can rely on
   (`Limits`, `LatePins.LatePinKeepsExactly`, `Tiers.FailedPutUnseenExactly`, `EndToEnd.StagedBlocksReachExactly`).

## Model

| member | source | states |
|---|---|---|
| EndToEnd.StoreThenRetrieve | src/llmcache/connectors/sglang.py:32-71 | Store a prompt's blocks, run any operations that do not write the id, retrieve for another prompt, or for none, into any buffer. If n tokens are returned: the prompts agree on them, n is all that can be reused (or zero, exactly where the id is gone or expired at the first look), blocks past the reused chunks are unchanged, and for block lists that give each reused chunk as many distinct blocks as the source (of lengths that a split gives back, enough for n tokens), however long the lists, every destination block covering one of the n tokens equals its source block at store time. |
| EndToEnd.SaveMatchStageLoad | src/llmcache/connectors/vllm.py:141-237 | The same through the vLLM connector, with any operations that do not write the id between save, match, staging and load, and any number of tokens already computed: while the cache lives, a load of the allocated blocks is staged under the request's id, and if all staged loads succeed and later ones spare its blocks, every block covering a token of the staged chunks equals its source block at save time. |
| EndToEnd.LoadStagedExactly | src/llmcache/connectors/vllm.py:153-168 | For a live id and tokens to load, exactly a load of the id, the allocated blocks and the rounded-up chunk count is staged under the request's id, all others staying; for no id, nothing to load or a dead id, no load changes. |
| EndToEnd.SaveStagedExactly | src/llmcache/connectors/vllm.py:170-179 | Exactly when the request asks for it, a save of its id, prompt, blocks, lifetime and pin is staged under its id, all others staying. |
| EndToEnd.MatchStageLoad | src/llmcache/connectors/vllm.py:141-208 | The match, stage and load half, from any engine whose descriptor and remaining chunks are those of the saved buffer. |
| EndToEnd.RetrieveBringsBack | src/llmcache/connectors/sglang.py:57-71 | The retrieve half, from any engine whose descriptor and remaining chunks are those of the saved buffer. |
| EndToEnd.LoadBringsBack | src/llmcache/connectors/vllm.py:206-208 | Loading m chunks of a saved cache into a buffer copies their blocks byte for byte and touches no other block. |
| EndToEnd.StartLoadTouchesStagedOnly | src/llmcache/connectors/vllm.py:202-208 | Whether the staged loads all succeed or one raises half-way, a block outside their chunks is as it was. |
| EndToEnd.WaitForSaveFaithful | src/llmcache/connectors/vllm.py:221-237 | After a worker step that saved everything staged, the engine holds exactly each save that no later one of the same id replaces. |
| EndToEnd.SaveTokensFaithful | src/llmcache/connectors/sglang.py:44-55 | A save that commits leaves, under the id, the joined blocks of every chunk and a descriptor of the tokens. |
| Outcomes.SavesExactly | src/llmcache/connectors/sglang.py:43-55 | A save fails with the transfer's error, nothing stored, exactly for a block size that is zero or does not divide the chunk size; else only a bounded hot store can fail it, no descriptor changed; if it goes in, exactly the descriptor of its tokens is new, with the lifetime asked for or the default, pinned or not. |
| Outcomes.SaveFitsExactly | src/llmcache/connectors/sglang.py:44-47 | Over a bounded store a save under new chunk keys goes in if and only if, pinned, the bytes of all its blocks fit beside those pinned, or, unpinned, those of each chunk alone do. |
| Outcomes.SavedLifetime | src/llmcache/connectors/sglang.py:48-55 | A save, pinned or not, is live exactly until its own lifetime or the default has passed. |
| Outcomes.WaitForSaveInTurn | src/llmcache/connectors/vllm.py:225-237 | A worker step performs its saves in turn, each succeeding as that save does, and stops at the first that fails. |
| Outcomes.StartLoadInTurn | src/llmcache/connectors/vllm.py:206-208 | A worker step performs its loads in turn, each failing exactly as its load or transfer does, and stops at the first that fails. |
| Outcomes.MatchesExactly | src/llmcache/connectors/vllm.py:141-151 | A request matches exactly all tokens it can reuse beyond those computed, for every live cache that answers as recorded, and nothing for a dead one or without an id. |
| Outcomes.RetrievesExactly | src/llmcache/connectors/sglang.py:57-71 | A retrieve returns zero for a dead id; else it fails exactly as its load or transfer does, or returns all tokens that can be reused. |
| Outcomes.RetrieveReturnsExactly | src/llmcache/connectors/sglang.py:66-71 | Over a store without stale pins a retrieve from a live cache returns if and only if each reused chunk is stored, and in hot or small enough to be promoted beside what is pinned. |
| EndToEnd.SaveCalm | src/llmcache/connectors/vllm.py:225-237 | A save, complete or failed half-way, never changes what another id's chunks read as. |
| EndToEnd.StagedCountIsLookupCount | src/llmcache/connectors/vllm.py:148-167 | With nothing computed, the number of chunks a load is staged with is the lookup's chunk count, short tail included. |
| EndToEnd.StagedLoadReachesTailExactly | src/llmcache/connectors/vllm.py:149-167 | With some tokens computed, the staged load (which starts at chunk 0) reaches the last reusable chunk if and only if fewer tokens are computed than that chunk holds. |
| EndToEnd.StagedBlocksReachExactly | src/llmcache/connectors/vllm.py:162-207 | In blocks: of lists that fit the match, the staged load reaches every block of the matched tokens if and only if the same holds. |
| EndToEnd.PinnedPromptsComeBack | src/llmcache/connectors/sglang.py:32-71 | After a store succeeds, pinned over any store or over one without a byte budget, and after any run before expiry that does not write, unpin, delete or extend the id, failures included, a retrieve succeeds, returns exactly all tokens the request can reuse, and restores their blocks. |
| EndToEnd.HeldMatches | src/llmcache/connectors/vllm.py:141-151 | While such a save lives, a request for it matches exactly all tokens it can reuse beyond those computed. |
| EndToEnd.HeldStagedLoad | src/llmcache/connectors/vllm.py:202-208 | And a load staged for it never fails: if the loads staged before it succeed, so does it, and it restores the blocks of the tokens it was staged for. |
| EndToEnd.LookupReusable | src/llmcache/engine.py:199-214 | A lookup, with or without request tokens, reports exactly the tokens that can be reused, all of them shared with the registration, and their rounded-up chunk count. |
| EndToEnd.AllocatedShape | src/llmcache/connectors/transfer.py:58-61 | With exactly as many blocks as the token counts need, or enough for the reused chunks in full, a lookup's chunks take the same number of blocks at source and destination, and the blocks of its tokens are among them. |
| EndToEnd.CoveredBlocks | src/llmcache/connectors/transfer.py:58-61 | Where each chunk has as many blocks on either side and the source has blocks for n tokens, the first m chunks reach the blocks of all n tokens. |
| Connectors.Stage | src/llmcache/connectors/vllm.py:163-179 | A staged load or save is found under its request id and hides no other request's. |
| Connectors.StageOrder | src/llmcache/connectors/vllm.py:163-179 | Staging keeps one load and one save per request, in order of first arrival. |
| Adapters.SGLangExplicitCache.StoreTokens | src/llmcache/connectors/sglang.py:32-55 | The method leaves and returns what `Connectors.SaveTokens` computes; without a transfer it raises and changes nothing. |
| Adapters.SGLangExplicitCache.RetrieveTokens | src/llmcache/connectors/sglang.py:57-71 | The method leaves engine and buffer as `Connectors.Retrieve` computes and returns its token count or error. |
| Adapters.ExplicitLMCacheConnector.GetNumNewMatchedTokens | src/llmcache/connectors/vllm.py:141-151 | The method leaves and returns what `Connectors.NumNewMatched` computes. |
| Adapters.ExplicitLMCacheConnector.UpdateStateAfterAlloc | src/llmcache/connectors/vllm.py:153-179 | The method leaves engine and staging as `Connectors.UpdateAfterAlloc` computes. |
| Adapters.ExplicitLMCacheConnector.BuildConnectorMeta | src/llmcache/connectors/vllm.py:181-188 | Everything staged leaves with the metadata, in order, and nothing stays staged. |
| Adapters.ExplicitLMCacheConnector.StartLoadKv | src/llmcache/connectors/vllm.py:202-208 | The loop of loads does what `Connectors.StartLoad` computes, stopping at the first that raises. |
| Adapters.ExplicitLMCacheConnector.WaitForSaves | src/llmcache/connectors/vllm.py:221-237 | The loop of saves does what `Connectors.WaitForSave` computes, stopping at the first that raises. |
| Adapters.SaveInto | src/llmcache/connectors/vllm.py:226-237 | One save: blocks read, chunks put, descriptor committed, exactly as `Connectors.SaveTokens` says, failures included. |
| Adapters.PutChunks | src/llmcache/connectors/sglang.py:46-47 | The put loop stores the payloads in order and stops at the first put that raises. |
| Reuse.NeverWrongKv | src/llmcache/engine.py:70-107 | After any run in which every registration of an id succeeds or is refused for its chunk counts, and nothing else writes it, a load for a registered worker that returns gives exactly the leading payloads of the latest registration. |
| Reuse.LookupsMatchLatest | src/llmcache/engine.py:188-214 | After such a run the chunks a lookup counts are the leading chunks of both the request and the latest registered tokens. |
| Reuse.LookupClosedForm | src/llmcache/engine.py:199-214 | With l the longest common prefix: full reuse if and only if the registration is a prefix of the request and ends on a chunk boundary or is the whole request; otherwise l / size chunks; always within one chunk below l. |
| Reuse.LookupMatchesTokens | src/llmcache/types.py:81-101 | Every chunk a lookup counts has the same tokens in the request and in the record. |
| Reuse.RegisterFaithful | src/llmcache/engine.py:95-107 | A registration that succeeds leaves the engine describing its tokens, with no chunk of the id reading as anything but its payload, over any store and whatever was there before. |
| Reuse.RegisterFailsExactly | src/llmcache/engine.py:86-107 | A wrong chunk count for any worker fails, exactly, before anything is stored; otherwise only a bounded hot store can fail it (`Limits.RegisterGoesInExactly` says when); no failure touches a descriptor. |
| Reuse.RegisteredDescriptor | src/llmcache/engine.py:95-133 | The published descriptor: the id given, or the fresh one where none or an empty one is, token and chunk counts, sorted workers, largest layer count, clock reading and pin flag. |
| Reuse.StepCalm | src/llmcache/engine.py:136-276 | No operation that does not write an id makes its chunks read as anything else or its descriptor describe other tokens. |
| Reuse.RunFaithful | src/llmcache/engine.py:70-107 | Over such runs the engine stays faithful to the latest registration. |
| Reuse.UntouchedFaithful | src/llmcache/engine.py:136-276 | Any run that does not write an id keeps the engine faithful to its record. |
| Reuse.FaithfulLoad | src/llmcache/engine.py:216-234 | A load from a faithful engine returns the recorded payloads in order, as many as asked for and registered. |
| Reuse.PutAllView | src/llmcache/engine.py:97-100 | A run of puts changes what readers see under its own keys only, and there never to anything but what was put; over a store that never drops it is the exact map update. |
| Reuse.EntriesMap | src/llmcache/engine.py:97-100 | The keys a registration puts are exactly workers times chunk indexes, each with its worker's payload. |
| Lifecycle.PinnedCachesStayResident | src/llmcache/engine.py:97-106 | After a registration succeeds, pinned over any store or over one without a byte budget, any run that does not write, unpin, delete or extend the id, before it expires, leaves a load for every registered worker returning exactly its payloads, failing operations included. |
| Lifecycle.StepKeepsHeld | src/llmcache/store/cpu.py:102-110 | One operation on other ids, failing or not, keeps a pinned cache's descriptor and all its chunks resident. |
| Lifecycle.ExpiryIsPermanent | src/llmcache/engine.py:168-176 | Once an id is expired at t, after any later run that does not register or commit it, get, lookup, load, extension, pin and unpin all report it missing or expired. |
| Lifecycle.SweepForgetsExactly | src/llmcache/engine.py:270-276 | A sweep forgets exactly the caches expired at its clock reading, keeps every other descriptor, and returns their number. |
| Lifecycle.DescriptorsAgreeWithStore | src/llmcache/engine.py:95-107 | Over a store that never drops, every run of registrations under new ids, of registrations refused for their chunk counts and of operations that write no chunks keeps the store's keys exactly the chunks of current descriptors, and a CPU store's pin set exactly those of pinned ones. |
| Lifecycle.StepAgrees | src/llmcache/engine.py:237-276 | Each such operation keeps that agreement. |
| Lifecycle.DeleteLeavesNoOrphan | src/llmcache/engine.py:237-244 | Under that agreement a deletion leaves no chunk of the id, every other id's chunks and every other descriptor. |
| Lifecycle.AgreedLoadsComplete | src/llmcache/engine.py:224-234 | Under that agreement a load never finds a registered worker's chunk missing; only a promotion can raise. |
| Lifecycle.RegisteredLifetime | src/llmcache/engine.py:119-129 | A registration is live until its own lifetime, or the default, has passed, or for ever; the call that finds it expired forgets it. |
| Lifecycle.ExtendedLifetime | src/llmcache/engine.py:246-249 | An extension replaces the lifetime by one that starts now and touches no other cache. |
| KvCache.ExplicitKVCache.Register | src/llmcache/engine.py:70-107 | The method leaves and returns what `Engine.Engine.Register` computes, on every failure too. |
| KvCache.ExplicitKVCache.PutChunk | src/llmcache/engine.py:136-145 | The method leaves and returns what `Engine.Engine.PutChunk` computes. |
| KvCache.ExplicitKVCache.Commit | src/llmcache/engine.py:147-165 | The method publishes the descriptor `Engine.Engine.Commit` computes and leaves the store alone. |
| KvCache.ExplicitKVCache.LiveDescriptor | src/llmcache/engine.py:168-176 | Missing, expired (then deleted with its chunks) or the descriptor. |
| KvCache.ExplicitKVCache.Get | src/llmcache/engine.py:178-179 | The same as the live descriptor. |
| KvCache.ExplicitKVCache.Exists | src/llmcache/engine.py:181-186 | True if and only if the descriptor is live; an expired one is deleted. |
| KvCache.ExplicitKVCache.Lookup | src/llmcache/engine.py:188-214 | The method leaves and returns what `Engine.Engine.Lookup` computes. |
| KvCache.ExplicitKVCache.Load | src/llmcache/engine.py:216-234 | The method leaves and returns what `Engine.Engine.Load` computes. |
| KvCache.ExplicitKVCache.Delete | src/llmcache/engine.py:237-244 | The descriptor and every worker's every chunk are removed; an unknown id changes nothing. |
| KvCache.ExplicitKVCache.ExtendTtl | src/llmcache/engine.py:246-249 | The method leaves and returns what `Engine.Engine.ExtendTtl` computes. |
| KvCache.ExplicitKVCache.Pin | src/llmcache/engine.py:251-256 | The flag is set and every chunk of every worker pinned. |
| KvCache.ExplicitKVCache.Unpin | src/llmcache/engine.py:258-263 | The flag is cleared and every chunk of every worker unpinned. |
| KvCache.ExplicitKVCache.SweepExpired | src/llmcache/engine.py:270-276 | Deleting the expired caches one by one, in any order, leaves what removing them all at once leaves. |
| KvCache.ExplicitKVCache.List | src/llmcache/engine.py:265-268 | The descriptors left after a sweep. |
| KvCache.RemoveChunks | src/llmcache/engine.py:242-244 | The nested loops remove exactly the cache's keys. |
| KvCache.PinChunks | src/llmcache/engine.py:254-256 | The nested loops pin exactly the cache's keys. |
| KvCache.UnpinChunks | src/llmcache/engine.py:261-263 | The nested loops unpin exactly the cache's keys. |
| KvCache.PutShards | src/llmcache/engine.py:96-100 | The nested loops make the registration's puts in order, stop at the first that raises, and find the largest layer count. |
| KvCache.GetChunks | src/llmcache/engine.py:226-234 | The loop makes the gets of a load in order and ends at the first chunk that is missing or cannot be promoted. |
| Engine.StepValid | src/llmcache/engine.py:70-276 | Every operation, raising ones included, keeps descriptors filed under their own id and chunk size, and the store's byte budget. |
| Engine.LayersFrom | src/llmcache/engine.py:96-99 | The largest layer count among the payloads and the start value. |
| Engine.SortedSorts | src/llmcache/engine.py:102-104 | A descriptor's workers are those registered, ascending. |
| Outcomes.LiveExactly | src/llmcache/engine.py:168-186 | An id is live exactly when described and not expired; a missing one is not found, an expired one is reported as such and deleted at once with its chunks. |
| Outcomes.LookupReturnsExactly | src/llmcache/engine.py:188-214 | A lookup returns exactly on a live cache, for any request, and then changes nothing; an expired cache it deletes. |
| Outcomes.LoadFailsExactly | src/llmcache/engine.py:224-234 | A load fails on a dead cache as a lookup does, deleting an expired one, and else does exactly what its gets do. |
| Outcomes.GetRangeFailsAt | src/llmcache/engine.py:227-234 | Without stale pins the gets of a load fail at the first chunk that is missing, as missing, or that does not fit beside what is pinned, as out of space. |
| Outcomes.ExtendsExactly | src/llmcache/engine.py:246-249 | An extension succeeds exactly on a live cache, whatever its lifetime, and changes its expiry alone. |
| Outcomes.PinsExactly | src/llmcache/engine.py:251-256 | A pin succeeds exactly on a live cache: the flag is set, exactly its chunks in hot are pinned there, its copies in cold lose their expiry, and readers see no change. |
| Outcomes.PinnedLaterStaysResident | src/llmcache/engine.py:251-256 | Pinning a live cache whose chunks are all in hot keeps it loadable with exactly its recorded payloads, as registering it pinned does. |
| Outcomes.PinKeepsExactly | src/llmcache/engine.py:251-256 | A described chunk stays readable after the pin if and only if hot held it or already its pin, or nothing is ever lost there. |
| Outcomes.UnpinsExactly | src/llmcache/engine.py:258-263 | An unpin succeeds exactly on a live cache: the flag is cleared, no chunk of it stays pinned in hot and no other pin goes, and its copies in cold get the tier's expiry. |
| Outcomes.DeleteForgetsExactly | src/llmcache/engine.py:237-244 | For any engine a deletion takes out the descriptor and exactly the chunks it describes, with their pins in hot; an unknown id changes nothing. |
| Outcomes.SweepRemovesExactly | src/llmcache/engine.py:270-276 | For any engine a sweep takes out of the store exactly the chunks of expired caches. |
| Outcomes.CommitsExactly | src/llmcache/engine.py:147-165 | A commit cannot fail; it publishes the tokens' descriptor with the workers ascending, the layer count, clock reading, pin flag and lifetime given, and changes nothing else. |
| Outcomes.CommittedLifetime | src/llmcache/engine.py:119-129 | A committed cache, pinned or not, is live exactly until its own lifetime or the default has passed. |
| Outcomes.PutsChunkExactly | src/llmcache/engine.py:136-145 | A chunk put goes in exactly when it fits beside what is pinned under other keys; then it is in hot, pinned if asked, with a cold copy without expiry; no descriptor changes. |
| Outcomes.RegisterGoesInByTurns | src/llmcache/engine.py:86-107 | Over any store, for new keys or old, a registration succeeds if and only if its chunk counts are right and each put fits beside the pinned bytes when its turn comes. |
| StoreRuns.TieredRefinesMap | src/llmcache/store/tiered.py:29-68 | Over a cold tier that never drops, in every run in which no put raises, readers see exactly a plain map with the same puts and removes. |
| StoreRuns.TieredRepliesAsMap | src/llmcache/store/tiered.py:32-54 | After such a run every operation answers as the plain map does, except a get of a key that is only in cold and does not fit beside what is pinned in hot, which raises. |
| StoreRuns.ReadsWereWritten | src/llmcache/store/tiered.py:39-46 | In every run from an empty store, with anything raising and cold keys expiring, an object a get returns was put under that key and the key not removed since. |
| StoreRuns.StepProvenance | src/llmcache/store/tiered.py:29-46 | One operation only moves, drops or writes objects. |
| StoreRuns.PinnedPutProtects | src/llmcache/store/tiered.py:32-37 | A pinned put that succeeds leaves the key pinned in hot with a cold copy that has no expiry. |
| StoreRuns.ProtectedForever | src/llmcache/store/tiered.py:29-37 | Such a copy keeps having no expiry through every run until the key is unpinned or removed: no demotion overwrites it. |
| StoreRuns.PinProtectsExactly | src/llmcache/store/tiered.py:56-58 | Pinning protects the cold copy itself if and only if there is one and hot holds the key or already its pin. |
| LatePins.LatePinKeepsExactly | src/llmcache/store/tiered.py:56-58 | A stored key, once pinned alone or with others, stays readable through every run in which nothing raises and it is neither unpinned nor removed, expiries included, if and only if hot held it or already its pin, or the cold tier sets no expiry, or hot has no capacity limit or none of a byte. |
| LatePins.LosingRun | src/llmcache/store/cpu.py:70-73 | In every other state a run of removals, two puts and an expiry loses the key with nothing raising. |
| LatePins.AdmittedEvictsNothing | src/llmcache/store/cpu.py:95-114 | A put admitted without a limit, or without a byte of room, evicts nothing. |
| StoreRuns.StepValid | src/llmcache/store/cpu.py:38-77 | Every operation on a store keeps its byte accounting and tiers. |
| Tiers.TieredPutView | src/llmcache/store/tiered.py:32-37 | A put changes what readers see at its own key only; if it raises, the key reads as its older cold copy, or as nothing. |
| Tiers.FailedPutUnseenExactly | src/llmcache/store/cpu.py:40-43 | Over a cold tier a put that raises leaves what readers see if and only if its key was not in hot or cold holds the same object. |
| Tiers.FailedPutAloneUnseenExactly | src/llmcache/store/cpu.py:40-43 | On a CPU store alone it does if and only if the key was not there and everything was pinned, or the object was oversized with no pin recorded. |
| Tiers.GetView | src/llmcache/store/tiered.py:39-46 | A get changes what readers see at no key, even when promotion raises, and answers from what they see. |
| Tiers.GetRaisesExactly | src/llmcache/store/tiered.py:39-46 | A get raises if and only if its key is only in cold and its bytes with those pinned under other keys exceed the hot capacity. |
| Tiers.GetPromotes | src/llmcache/store/tiered.py:39-46 | A get that returns an object leaves it in hot as the most recently used. |
| Tiers.UnpinnedExpires | src/llmcache/store/remote.py:90-92 | Once unpinned, a stored key is dropped when the tier's expiry runs out, and never where it has none. |
| Tiers.HotPutView | src/llmcache/store/cpu.py:38-48 | On a CPU store alone a put loses exactly its victims, none of them pinned, and its own old object. |
| Tiers.DemoteView | src/llmcache/store/tiered.py:29-30 | Demotion moves objects between tiers without changing what shows through. |
| Tiers.RemoveView | src/llmcache/store/tiered.py:51-54 | Removal takes the keys out of what readers see, in both tiers. |
| Tiers.PinView | src/llmcache/store/tiered.py:56-62 | Pinning and unpinning change nothing that readers see. |
| Tiers.PutKeepsResident | src/llmcache/store/cpu.py:102-110 | A pinned resident object stays through any put under another key, and a pinned put makes one. |
| Tiers.GetKeepsResident | src/llmcache/store/tiered.py:39-46 | A pinned resident object stays through any get, and is what a get of it returns. |
| Lru.PutAdmittedExactly | src/llmcache/store/cpu.py:95-114 | A put succeeds if and only if its bytes and the bytes pinned under other keys fit the capacity together. |
| Lru.PutVictimsExactly | src/llmcache/store/cpu.py:98-114 | On success the victims are the shortest sufficient prefix of the unpinned other keys in recency order; on failure all of them, or none for an oversized object with no pin recorded. |
| Lru.PutState | src/llmcache/store/cpu.py:38-48 | The survivors keep order, objects and pins; the newcomer is last; a failed put has dropped its key's old object and kept its pin. |
| Lru.PutValid | src/llmcache/store/cpu.py:38-48 | Key bookkeeping and byte accounting survive every put, the failing ones included. |
| Lru.TouchValid | src/llmcache/store/cpu.py:50-55 | A hit moves its key last and keeps the accounting. |
| Lru.DropValid | src/llmcache/store/cpu.py:61-68 | Removal takes out exactly the removed bytes. |
| Recency.OrderIsByLastUse | src/llmcache/store/cpu.py:44-55 | After every run the dictionary lists its keys by the time of their last successful put or hitting get, and the store is valid. |
| Recency.VictimsAreLeastRecentlyUsed | src/llmcache/store/cpu.py:102-110 | After every run each victim of a put was last used before every unpinned survivor other than the incoming key. |
| Backends.CPUBackend.Put | src/llmcache/store/cpu.py:38-48 | The method leaves hot and, through the callback, cold as `Tiers.Store.PutHot` computes, with the byte counter equal to the resident sizes. |
| Backends.CPUBackend.EnsureRoom | src/llmcache/store/cpu.py:95-114 | The eviction loop pops and hands to the callback exactly the victims `Lru.EnsureRoom` computes, and fails exactly when it does. |
| Backends.CPUBackend.PopVictim | src/llmcache/store/cpu.py:107-110 | One eviction: entry out, counter down, object stored unpinned in the tier behind. |
| Backends.CPUBackend.Get | src/llmcache/store/cpu.py:50-55 | The object, moved last, or nothing. |
| Backends.CPUBackend.Contains | src/llmcache/store/cpu.py:57-59 | True if and only if the key is resident. |
| Backends.CPUBackend.Remove | src/llmcache/store/cpu.py:61-68 | Entry and pin go and true is returned, or nothing was there, any pin stays and false is returned. |
| Backends.CPUBackend.Pin | src/llmcache/store/cpu.py:70-73 | The pin is recorded if the key is resident. |
| Backends.CPUBackend.Unpin | src/llmcache/store/cpu.py:75-77 | The pin is discarded. |
| Backends.CPUBackend.Keys | src/llmcache/store/cpu.py:79-81 | The keys in recency order. |
| Backends.CPUBackend.Stats | src/llmcache/store/cpu.py:83-92 | The counter is the sum of the resident sizes; the pinned bytes are those of pinned resident objects and at most the used bytes. |
| Backends.TieredBackend.Put | src/llmcache/store/tiered.py:32-37 | The method leaves both tiers as `Tiers.Store.Put` computes and raises exactly when it does. |
| Backends.TieredBackend.Get | src/llmcache/store/tiered.py:39-46 | The method leaves both tiers as `Tiers.Store.Get` computes and returns its object, nothing, or the promotion's failure. |
| Backends.TieredBackend.Contains | src/llmcache/store/tiered.py:48-49 | True if and only if readers see the key. |
| Backends.TieredBackend.Remove | src/llmcache/store/tiered.py:51-54 | Both tiers drop the key; true if and only if readers saw it. |
| Backends.TieredBackend.Pin | src/llmcache/store/tiered.py:56-58 | Both tiers pin the key. |
| Backends.TieredBackend.Unpin | src/llmcache/store/tiered.py:60-62 | Both tiers unpin the key. |
| Backends.TieredBackend.Keys | src/llmcache/store/tiered.py:64-68 | Exactly the keys readers see. |
| Backends.ColdBackend.Put | src/llmcache/store/disk.py:33-42 | The object is stored; the expiry, where the tier has one, is set unless pinned. |
| Types.MatchedChunksClosedForm | src/llmcache/types.py:81-101 | The prefix match counts the whole chunks inside the longest common prefix, plus the short final chunk only when request and registration are the same tokens. |
| Types.MatchedChunkCount | src/llmcache/types.py:81-101 | The loop returns the length of the common prefix of the two fingerprint lists. |
| Types.ChunksPartition | src/llmcache/types.py:74-78 | The chunks concatenate to the tokens, all but the last are full, none is empty, and there are as many as the connectors' ceiling. |
| Types.TokenFingerprint | src/llmcache/types.py:33-38 | The loop feeds the hash the concatenated 4-byte words of the tokens. |
| Types.TokenWordValue | src/llmcache/types.py:36-37 | A token is hashed as four bytes, lowest first, of its 32-bit two's complement. |
| Types.FingerprintInjective | src/llmcache/types.py:33-38 | For 32-bit tokens two runs share a fingerprint if and only if they are the same run. |
| Transfer.SaveThenLoad | src/llmcache/connectors/transfer.py:56-79 | Loading chunks saved from one block list into another copies the blocks, overlapping lists and the same buffer included, and leaves every other block. |
| Transfer.SplitPartition | src/llmcache/connectors/transfer.py:82-89 | Splitting into n parts gives n parts that concatenate to the data. |
| Transfer.SplitUndoesJoinExactly | src/llmcache/connectors/transfer.py:70-89 | Splitting the join of n blocks gives back the blocks if and only if each has the length of the slice that the split takes in its place. |
| Transfer.SplitUndoesJoin | src/llmcache/connectors/transfer.py:70-89 | So it does for n blocks of one size, the empty size included. |
| Transfer.DictKVTransfer.LoadBlocks | src/llmcache/connectors/transfer.py:56-63 | The nested loops leave the buffer `LoadInto` computes, or raise before writing anything. |
| Transfer.DictKVTransfer.WriteChunk | src/llmcache/connectors/transfer.py:62-63 | The parts are written to their blocks in order. |
| Transfer.DictKVTransfer.SaveBlocks | src/llmcache/connectors/transfer.py:65-79 | One payload per chunk, the join of its blocks in order; a block size that does not divide the chunk size raises. |
| Outcomes.BlocksPerChunkExactly | src/llmcache/connectors/transfer.py:32-35 | The blocks per chunk are exactly the quotient where the block size divides the chunk size, and an error otherwise. |
| Outcomes.SavedMetadata | src/llmcache/connectors/transfer.py:70-78 | A saved payload holds its chunk's blocks and is marked with the chunk's tokens, all layers and the raw format. |
| Redis.RedisBackend.Put | src/llmcache/store/remote.py:68-73 | The server holds the frame under the key's name, with the default expiry or, pinned, none, and every other key as before. |
| Redis.RedisBackend.Get | src/llmcache/store/remote.py:75-79 | Exactly the object last stored, decoded from its frame, or nothing. |
| Redis.RedisBackend.Contains | src/llmcache/store/remote.py:81-82 | True if and only if the key is stored. |
| Redis.RedisBackend.Remove | src/llmcache/store/remote.py:84-85 | The key goes, no other does, and it says whether it was there. |
| Redis.RedisBackend.Pin | src/llmcache/store/remote.py:87-88 | The key's expiry goes, no other's does. |
| Redis.RedisBackend.Unpin | src/llmcache/store/remote.py:90-92 | The key gets the default expiry, if there is one and the key is stored. |
| Redis.RedisBackend.Expire | src/llmcache/store/remote.py:45-46 | The server dropping a key with an expiry takes that key and no other out of the tier, and never one without. |
| Redis.RedisBackend.Keys | src/llmcache/store/remote.py:94-100 | Every stored key is listed, and nothing else if each name that parses was written by this encoding. |
| RedisNames.ParseUndoesName | src/llmcache/store/remote.py:52-65 | Parsing a key's name gives the key, whatever colons namespace and id contain, for all integer worker and chunk numbers. |
| RedisNames.NameExample | src/llmcache/store/remote.py:52-53 | Names list namespace, id, worker and chunk in that order, on two examples. |
| RedisNames.NameInjective | src/llmcache/store/remote.py:52-53 | Within a namespace two keys share a name if and only if they are equal. |
| RedisNames.NamesCollideExactly | src/llmcache/store/remote.py:52-53 | For any two namespaces, two keys share a name if and only if they agree on worker and chunk, and namespace, colon and id make the same text. |
| RedisNames.CollisionsNeedExtension | src/llmcache/store/remote.py:52-53 | So namespaces can share names only if they are equal or one is the other followed by a colon and more. |
| RedisNames.NamespacesCollide | src/llmcache/store/remote.py:52-53 | And then they do: exactly the keys whose id begins with the rest and a colon are named like keys of the longer namespace. |
| RedisNames.IntTextRoundTrip | src/llmcache/store/remote.py:61-63 | A printed integer parses back to itself and contains no colon. |
| Payloads.UnpackUndoesPack | src/llmcache/payload.py:37-64 | Packing succeeds if and only if the header is shorter than 2^32 bytes, and unpacking then gives back the payload, whatever its data bytes. |
| Payloads.FrameLayout | src/llmcache/payload.py:37-47 | A frame is six bytes of magic, the header length in four bytes with the lowest first, the header, and the data. |
| Payloads.PackInjective | src/llmcache/payload.py:37-47 | Two payloads with the same frame are equal. |
| Payloads.LittleEndianRoundTrip | src/llmcache/payload.py:47-54 | A length that fits its bytes is read back. |
| Limits.UnpinnedRegisterLoadsExactly | src/llmcache/engine.py:97-100 | Over a bounded CPU store an unpinned registration under a new id is loadable for all its workers right after it succeeds if and only if its bytes fit next to the pinned ones. |
| Limits.UnpinnedRegisterLosesItsChunk | src/llmcache/engine.py:97-100 | In a store of one byte an unpinned registration of two one-byte chunks succeeds and its load reports a missing chunk. |
| Limits.UnpinnedPutsStayExactly | src/llmcache/store/cpu.py:95-114 | A run of unpinned puts of new keys that succeeds keeps them all if and only if they fit next to the pinned bytes together. |
| Limits.RegisterGoesInExactly | src/llmcache/engine.py:86-107 | A registration under new keys, over any bounded store, succeeds if and only if its chunk counts are right and, pinned, all its bytes fit beside those already pinned, or, unpinned, each chunk alone does. |
| Limits.RefusedRegistrationFaithfulExactly | src/llmcache/engine.py:97-106 | After a pinned re-registration is refused for space, on a CPU store, the id still answers as recorded if and only if every chunk that went in before the refusal is the recorded one. |
| Limits.RefusedRegistrationServes | src/llmcache/engine.py:97-106 | Over any store, a refused pinned re-registration whose first chunk went in leaves the descriptors as they were, and a load of that chunk returns the new payload. |
| Limits.RefusedRegistrationIsServed | src/llmcache/engine.py:97-106 | Two bytes pinned in a store of two, re-registered as a one-byte and a two-byte chunk: refused, and the new first chunk is served. |
| Limits.AgreedLoadReturnsExactly | src/llmcache/engine.py:224-234 | When descriptors and store agree and no pin is stale, a load for a registered worker returns if and only if each chunk asked for is in hot or fits beside the pinned bytes. |
| Limits.UnregisteredWorkerFindsNothing | src/llmcache/engine.py:216-234 | When descriptors and store agree, a load of any chunk for a worker that is not registered reports it missing. |
| Limits.UnregisteredWorkerServesOld | src/llmcache/engine.py:216-234 | Otherwise it can return an older registration's payload: registered for two workers, then for one with other tokens. |
| Limits.ReRegisterLeavesExactly | src/llmcache/engine.py:97-106 | After re-registering an id, deleting it leaves exactly the old chunk keys the new registration did not reuse; none if and only if it covers them all. |
| Limits.ReRegisterAgreesExactly | src/llmcache/engine.py:97-106 | Descriptors and store still agree after re-registering if and only if the new registration covers every old chunk and, on a CPU store, is not an unpinned one over a pinned one. |
| Limits.ReRegisterLeavesOrphan | src/llmcache/engine.py:97-106 | Two chunks re-registered as one and deleted: the second chunk is left. |
| Limits.FailedPutBringsOldObjectBack | src/llmcache/store/cpu.py:40-43 | A run after which a put that raises makes readers see an object that had been replaced. |
| Limits.PinOfDemotedKeyIsLost | src/llmcache/store/tiered.py:56-58 | A run in which no call raises and a pinned key is never unpinned or removed, yet its object is lost. |
| Limits.HalfComputedMissesTail | src/llmcache/connectors/vllm.py:162-162 | Two reusable chunks, the first already computed: the load is staged with one chunk, the first again. |

## Left out

- `control.py` and `cli.py`: HTTP routing and argument parsing over the engine's operations.
- `TorchSerializer` and `TorchKVTransfer`: tensor library calls; `DictKVTransfer` is modelled instead.
- Disk file operations: a disk tier is a cold tier without expiry, the map behind the backend interface; its pin set and its capacity field affect only its statistics.
- The Redis client: a map from names to values with an optional default expiry. Scan globbing, the network, an expiry of zero seconds, and names written by other programs (outside `Redis.RedisBackend.Keys`) are not modelled. When a key expires is an event that can happen at any time.
- `TieredBackend` over a hot store other than `CPUBackend`, for which the source wires no demotion.
- Redis.RedisBackend.Put: a header of 2^32 bytes or more raises OverflowError; the backend model has that failure, but the tiers above take a cold put that does not raise.
- RedisNames.ParseUndoesName: the parser here accepts an optional sign and ASCII digits; Python's `int` also accepts blanks, underscores and other digits, which `_name` never writes.
- Types.FingerprintInjective: the blake2b digest is its input, that is, assumed free of collisions; token ids outside 32 bits raise OverflowError and are not modelled.
- Payloads.UnpackUndoesPack: the JSON header codec is a parameter required to be invertible.
- Thread interleavings: no lock spans a hot miss and its promotion, or a registration's puts and its publication, so operations are sequential here.
- Cache names, `clear` and the summed statistics of two tiers.
- Descriptors are values here; the source hands out the object that `extend_ttl` and `pin` later update. A lookup reads the clock once, for its check.
- Floating-point time: clock readings are real numbers.
- KvCache.ExplicitKVCache.constructor: a chunk size that is not positive raises ValueError in the source and is a precondition here; block sizes are not negative.
- Reuse.NeverWrongKv: stated for registered workers, because `load` does not check its worker against the descriptor (`Limits.UnregisteredWorkerServesOld`), and for runs in which no registration of the id is refused for space (`Limits.RefusedRegistrationServes`).
- KvCache.ExplicitKVCache.Lookup: does not model the hit counter and the last-used stamp a lookup updates, which no other operation reads.
- KvCache.ExplicitKVCache.List: gives the descriptors as a map, without the insertion order of the source's list.
- vLLM base classes, metadata accessors, per-layer hooks and the asynchronous flag, which do nothing here.

Where the code and its comments differ, the model follows the code:

- The comment on short final chunks (src/llmcache/types.py:97-98) names a necessary condition for a match, that the request has at least as many tokens there; the code is stricter and matches one only when the request ends exactly there (`Types.MatchedChunksClosedForm`).
- A put that raises has already dropped its key's old object, and in two tiers can bring an older one back (`Tiers.TieredPutView`, `Tiers.FailedPutUnseenExactly`, `Limits.FailedPutBringsOldObjectBack`).
- An object larger than the capacity evicts every unpinned object before it fails, as soon as any pin is recorded (`Lru.PutVictimsExactly`).
- A re-registration that is refused for space has already overwritten chunks under the old descriptor (`Limits.RefusedRegistrationServes`).
- Pins survive a failed put of their key and re-registration without `pin` (`Lru.PutState`); pinning a key that is only in cold leaves no pin in hot, so a later demotion makes the copy expire again (`Limits.PinOfDemotedKeyIsLost`, `LatePins.LatePinKeepsExactly`).
- Two Redis namespaces can name different keys alike when one extends the other at a colon, and only then (`RedisNames.NamesCollideExactly`, `RedisNames.CollisionsNeedExtension`).
