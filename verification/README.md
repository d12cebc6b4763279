# Proofs about the Kodus review engine

A Dafny model of the parts of the repository whose behaviour is hardest to see from one function:

* the **diff toolchain** of `src/shared/utils/patch.ts`: pruning hunks, rendering them with new-file line
  numbers, and reading the rendering back (`Patch*.dfy`);
* the **kodus-flow kernel**: deterministic printing and hashing (`Json*.dfy`, `KeyOrder.dfy`, `StableHash.dfy`),
  the snapshot store with delta compression (`Persistor.dfy`, `DeltaFidelity.dfy`), the LRU cache
  (`LruCache.dfy`), the execution kernel with its context store, write-behind queue, cache, quota and snapshots
  (`Kernel*.dfy`, `ExecutionKernel.dfy`), bounded atomic operations (`AtomicOps.dfy`), the request protocol of
  the event manager (`Requests.dfy`), and event bridges between kernels (`Bridges.dfy`, `Propagation.dfy`);
* the **review algorithms**: balanced batches (`Batches.dfy`), PR-level rule analysis (`PrLevel*.dfy`), fine
  tuning by similarity (`Vectors.dfy`, `FineTuning.dfy`) and directory-scoped configuration (`Directories.dfy`).

Code that works in place is a class or a method with its loops, and each method is proved to compute a
specification function; the theorems are about those functions. The kernel is a state machine
(`KernelState.Next`) whose steps are the kernel's methods and its timer, with everything outside as a parameter
of the step: whether the runtime starts, accepts an event or cleans up, whether the store takes a snapshot and
under which hash, what a new context is loaded with, and the clock. `ExecutionKernel` has the fields and the
object sharing of the original and is proved to make exactly those steps; `KernelState` names context objects by
references, so that a stored snapshot and the live context can be one object.

## Where the code and its intent part

Each of these is proved, with the condition under which the intended property does hold.

* Cache coherence holds for all admissible runs exactly if tenant isolation is on and either batching is off or
  the tenant is not called "tenant" (`KernelCaching.CoherenceIsExact`). Without isolation two threads share a
  cell but not a cache key; for a tenant "tenant" a flushed cache key can be the key of a thread's record.
* With batching and caching, of two increments in a row the first is lost once the cell has been read
  (`KernelCaching.IncrementTwice`).
* `resume` drops queued updates but leaves the debounce timer set; when it fires on the empty queue, no later
  update is ever flushed by a timer (`KernelLifecycle.ScheduledNext`, `KernelLifecycle.StrandedRun`).
* A quota pause stores a snapshot that already is at the quota, so resuming it runs over quota
  (`KernelLifecycle.QuotaPauseResumesOverQuota`).
* After `resume` the live context is the stored snapshot's object: after any run that leaves it in place, a
  second resume of the same hash finds the context of that moment beside the old event count
  (`KernelPause.SecondResume`).
* `append` passes wrappers to `calculateDelta`, while `applyDelta` expects component deltas: on any store, an
  appended delta loads back as appended only if nothing had changed (`DeltaFidelity.WrappedAppend`). Appending
  the last hash again as a delta overwrites its own base: the written call loses all events, component deltas
  keep them exactly if there are none or the overwritten record had none, and keep the state exactly if all of
  its fields differ from that record (`DeltaFidelity.RepeatedHashLosesEvents`,
  `DeltaFidelity.RepeatedHashState`). Appending any stored hash again replaces the base of the deltas on it: they
  restore as before exactly if the new raw record has the old events and agrees in the fields they leave alone,
  and a delta record has no events (`DeltaFidelity.OverwrittenBase`).
* Keys are not escaped in the deterministic text. Without a quote and a colon in a row in a key the text tells
  all values apart (`JsonCanonical.StringifyCanonical`); with them one key can read like several, exactly if it
  is the text of these keys and the values between them (`JsonCanonical.QuotedKeyCollides`,
  `JsonScan.SingleKeyReads`).
* The LRU scan evicts the least recently used entry exactly if no entry before it in the Map has the same access
  time; the cache is the recency list at every point of a run exactly if no eviction meets such a tie
  (`LruCache.SameVictim`, `LruCache.RefinementIsExact`; an instance is `LruCache.TieEvictsRecent`).
* The diff renderer skips every line that quotes the "no newline" remark, added and context lines as well: the
  line numbers it shows are right for all added lines exactly if none of them quotes a marker or the remark or
  stands behind an added or context line of its hunk that quotes the remark (`PatchTheorem.RegularToolChain`; for
  irregular "\" lines and headers, exactly if its count has slipped at none, `PatchTheorem.ToolChain`).
* `omitDeletionHunks` is documented to remove deletion-only hunks; it removes only those after the last added
  line (`PatchPruneLaws.PruneMeetsDocumentation`).
* Resetting a kernel replaces the set of pending operations, and resuming a snapshot puts the set of its time
  back. The set is exactly the running operations exactly as long as no reset and no resume of another set meets
  one (`AtomicOps.ExactIffHarmless`); otherwise two operations can run under one id (`AtomicOps.ResetLosesId`,
  `AtomicOps.ResumeForgets`).
* A request's listener outlives its timeout: if the correlation id is used again, a failing response leaves the
  new request unsettled, not pending and not timed (`Requests.ReusedIdHangs`).
* Bridge keys of different namespace pairs are equal exactly for the pairs `s`, `m->t` and `s->m`, `t`
  (`Bridges.KeysCollideIff`), and the later bridge then replaces the earlier one (`Bridges.KeysCollide`).
* A configured directory can be selected by some change exactly if no other configured directory contains it or
  is the same, one leading slash aside (`Directories.SelectableIff`), and one with a trailing slash matches only
  paths with an empty segment (`Directories.DirectoryMatches`).
* `createOptimizedBatches` treats its minimum as the limit; the maximum is exceeded exactly if the items fit the
  minimum but not the maximum (`Batches.MaximumIsExceeded`).

## Model

| member | source | states |
|---|---|---|
| PatchPrune.HandlePatchDeletions | src/shared/utils/patch.ts:8-23 | An absent or empty patch of a file neither modified nor added gives null, an absent patch otherwise the error of iterating it, and every other patch its pruned text |
| PatchPrune.OmitDeletionHunks | src/shared/utils/patch.ts:30-64 | The hunk-collecting loop keeps exactly the prefix of the lines through the last hunk with an added line, after dropping malformed "@@" lines |
| PatchPrune.CutLengthCuts | src/shared/utils/patch.ts:30-64 | The kept prefix ends behind the last hunk that contains an addition |
| PatchPrune.CutUnique | src/shared/utils/patch.ts:30-64 | There is only one such prefix |
| PatchPruneLaws.PruneIdempotent | src/shared/utils/patch.ts:30-64 | Pruning twice is pruning once, for every text |
| PatchPruneLaws.PruneIsPrefix | src/shared/utils/patch.ts:30-64 | On every patch that starts with a header and whose "@@" lines are headers the result is a prefix of the same kind, nothing after it is an addition, and it is empty or ends in an adding hunk |
| PatchPruneLaws.PruneKeepsNumbers | src/shared/utils/patch.ts:30-64 | On every such patch no added line is lost or renumbered |
| PatchPruneLaws.PruneMeetsDocumentation | src/shared/utils/patch.ts:25-64 | The documented removal of deletion-only hunks happens exactly if all of them stand behind the last addition; otherwise the result is longer |
| PatchRender.AppendNewHunk | src/shared/utils/patch.ts:108-118 | The new side of a hunk is appended, numbered, only if it has an added line |
| PatchRender.AppendOldHunk | src/shared/utils/patch.ts:120-130 | The old side of a hunk is appended only if it has a removed line |
| PatchRender.ConvertToHunksWithLinesNumbers | src/shared/utils/patch.ts:72-184 | The line loop computes the rendering that the theorems below are about |
| PatchNumbers.HeaderIff | src/shared/utils/patch.ts:78-79 | A line is a hunk header exactly if it has the documented shape, and the number taken from it is the second start, the one of the new file |
| PatchNumbers.DecimalHeader | src/shared/utils/patch.ts:78-142 | The header that a diff program writes for old start a and new start c, with or without sizes, gives c |
| PatchNumbers.AddedBehindHeader | src/shared/utils/patch.ts:138-160 | Behind a header an added line has the number of its new start plus the added and context lines between |
| PatchNumbers.RemarkIff | src/shared/utils/patch.ts:92-94 | A line is skipped exactly if the words of the remark stand in it, in any mixture of capitals |
| PatchNumbers.RemarkOfDiff | src/shared/utils/patch.ts:92-94 | The remark that diff programs write is skipped |
| PatchNumbers.NumberedLines | src/shared/utils/patch.ts:108-118 | Every line of the new side is shown as it is, behind its number |
| PatchNumbers.PlainLinesShown | src/shared/utils/patch.ts:120-130 | The lines of the old side are shown as they are |
| PatchTheorem.RenderingNumbers | src/shared/utils/patch.ts:72-184 | In the rendering of a well-formed patch the numbered additions are exactly the added lines that quote neither a marker nor the "no newline" remark, numbered by the count of the renderer, behind what the file name itself reads like |
| PatchTheorem.OneLineName | src/shared/utils/patch.ts:74-74 | A one-line file name reads like no numbered addition |
| PatchExtract.ExtractLinesFromDiffHunk | src/shared/utils/patch.ts:198-266 | The line loop with its open range computes the ranges of the text |
| PatchExtract.RangesExpand | src/shared/utils/patch.ts:198-266 | On any text the ranges, expanded in order, are exactly the numbered "+" lines that are neither "@@" nor marker lines |
| PatchExtract.RangesMaximal | src/shared/utils/patch.ts:235-258 | Between closing lines no two neighbouring ranges could be joined |
| PatchTheorem.ShownIsAdded | src/shared/utils/patch.ts:72-184 | The numbers found are those of all added lines exactly if every added line can be seen and stands where the count of the renderer has not slipped over an unnumbered remark |
| PatchTheorem.ToolChain | src/shared/utils/patch.ts:8-266 | Print and parse: prune, render, read back gives the new-file numbers of all added lines, in order, if and only if every added line quotes neither a marker nor the remark and stands where the count of the renderer has not slipped |
| PatchTheorem.InStepIffUnquoted | src/shared/utils/patch.ts:84-184 | On lines as diff programs write them the count of the renderer is right at every added line exactly if no added or context line before it in its hunk quotes the remark |
| PatchTheorem.RegularToolChain | src/shared/utils/patch.ts:8-266 | For such a patch the numbers of all added lines come back, in order, if and only if every added line quotes neither a marker nor the remark and no added or context line before it in its hunk quotes the remark; so they do whenever neither is quoted in the new file |
| PatchNumbers.FoundNumber | src/shared/utils/patch.ts:8-266 | End to end: an added line is found under the new start of its header plus the new-file lines between, at its place among the added lines |
| PatchTheorem.ModifiedRanges | src/shared/utils/patch.ts:8-266 | The same, with the same two conditions, for the three calls as the review pipeline makes them |
| Json.WireJson | packages/kodus-flow/src/kernel/snapshot.ts:18-42 | JSON.parse(JSON.stringify(v)) is v for JSON values (section 25.5.2 of ECMA-262) |
| Json.WireScalars | packages/kodus-flow/src/kernel/kernel.ts:1014-1025 | JSON.stringify has no text for undefined and writes numbers that are not finite as null |
| Json.WireItem | packages/kodus-flow/src/kernel/kernel.ts:1014-1025 | Arrays keep their length; undefined elements become null |
| Json.WireIsJson | packages/kodus-flow/src/kernel/kernel.ts:1014-1025 | What comes back is always a JSON value |
| JsonReader.EscapeReads | packages/kodus-flow/src/kernel/snapshot.ts:25-25 | A string as it is escaped is read back by the escape table of the JSON grammar (section 7 of RFC 8259) |
| JsonReader.EscapeIsShortest | packages/kodus-flow/src/kernel/snapshot.ts:25-25 | Nothing is escaped without need: no shorter text reads as the character (section 25.5.2.3 of ECMA-262) |
| JsonReader.PrintReads | packages/kodus-flow/src/kernel/snapshot.ts:18-42 | A reader after the JSON grammar (RFC 8259) reads every printed JSON value back, and what follows it |
| JsonReader.JsonTextReads | packages/kodus-flow/src/kernel/persistor.ts:46-46 | So JSON.parse(JSON.stringify(v)) is v by the grammar |
| JsonInjective.PrintCancel | packages/kodus-flow/src/kernel/snapshot.ts:18-42 | Printed values followed by a delimiter can be told apart, with what follows |
| JsonInjective.PrintInjective | packages/kodus-flow/src/kernel/snapshot.ts:18-42 | Printing in field order is one-to-one |
| JsonInjective.JsonTextInjective | packages/kodus-flow/src/kernel/persistor.ts:46-46 | Comparing the JSON texts of two JSON values compares the values, down to field order |
| KeyOrder.SortCorrect | packages/kodus-flow/src/kernel/snapshot.ts:33-33 | Sorting by UTF-16 code units keeps the record and orders its keys strictly |
| KeyOrder.LexicographicOrder | packages/kodus-flow/src/kernel/snapshot.ts:33-33 | The order is the lexicographic one, smaller units and proper prefixes first (section 7.2.12 of ECMA-262) |
| KeyOrder.UnitsDecode | packages/kodus-flow/src/kernel/snapshot.ts:33-33 | Characters are compared by their UTF-16 code units, surrogate pairs decoding to the character |
| KeyOrder.SortedUnique | packages/kodus-flow/src/kernel/snapshot.ts:33-33 | A record has one sorted list of fields |
| JsonCanonical.StringifyIsPrint | packages/kodus-flow/src/kernel/snapshot.ts:18-42 | The deterministic text is the printing of the value with its keys sorted at every depth |
| JsonReader.StringifyReads | packages/kodus-flow/src/kernel/snapshot.ts:18-42 | Where no key needs escaping the deterministic text is JSON: the reader gives the value back, its fields in key order at every depth |
| JsonCanonical.StringifyIgnoresOrder | packages/kodus-flow/src/kernel/snapshot.ts:18-42 | The deterministic text does not depend on the insertion order of keys at any depth |
| JsonCanonical.StringifyCanonical | packages/kodus-flow/src/kernel/snapshot.ts:18-42 | If no key contains a quote and a colon in a row, two values have the same text if and only if they are equal up to field order |
| JsonCanonical.QuotedKeyCollides | packages/kodus-flow/src/kernel/snapshot.ts:38-38 | Any two keys with any value between them can be read as one key: an object with one key has the text of one with two exactly if its key is the text in between |
| JsonScan.SingleKeyReads | packages/kodus-flow/src/kernel/snapshot.ts:18-42 | An object with any single key has the text of a value whose keys need no escaping, with any number of keys, if and only if that is an object with the same last value and the key is the text of its keys and the values between them |
| JsonScan.SameLastValue | packages/kodus-flow/src/kernel/snapshot.ts:38-38 | The same against every object, whatever its keys, whose last value has the same text |
| JsonScan.LastValuesDiffer | packages/kodus-flow/src/kernel/snapshot.ts:38-38 | An instance where keys hold quotes and the last values differ |
| StableHash.ShiftAddIsMultiply | packages/kodus-flow/src/kernel/snapshot.ts:57-62 | The five shifts and the sum are a multiplication by 16777619 modulo 2^32 |
| StableHash.Round | packages/kodus-flow/src/kernel/snapshot.ts:56-62 | A round stays within six times 2^31, far inside the exact integers of a double |
| StableHash.RoundIsFnvStep | packages/kodus-flow/src/kernel/snapshot.ts:56-62 | A round is one FNV-1a step modulo 2^32 (section 2 of draft-eastlake-fnv) |
| StableHash.XorBit | packages/kodus-flow/src/kernel/snapshot.ts:56-56 | Each bit is set exactly if it is set in one operand and not in the other |
| StableHash.TestVectors | packages/kodus-flow/src/kernel/snapshot.ts:49-66 | The published test vectors of FNV-1a for the empty text and for "a" (section 6 of draft-eastlake-fnv) |
| StableHash.Hex8Decodes | packages/kodus-flow/src/kernel/snapshot.ts:65-65 | The eight hex digits decode to the hash |
| StableHash.HashText | packages/kodus-flow/src/kernel/snapshot.ts:53-65 | The loop computes FNV-1a over the code units, and the result decodes to it |
| StableHash.StableHashOf | packages/kodus-flow/src/kernel/snapshot.ts:49-66 | Strings are hashed as they are, other values by their deterministic text |
| StableHash.HashEqualIffFnvEqual | packages/kodus-flow/src/kernel/snapshot.ts:49-66 | Two texts share a hash exactly if their FNV-1a values agree |
| StableHash.HashIgnoresOrder | packages/kodus-flow/src/kernel/snapshot.ts:49-66 | The hash does not see the order of keys |
| Persistor.CalculateDelta | packages/kodus-flow/src/kernel/persistor.ts:15-64 | The loops over new and old keys compute the delta that the theorems below are about |
| Persistor.ApplyDelta | packages/kodus-flow/src/kernel/persistor.ts:84-137 | The copied state with changes and deletions, and the appended events if all look like events |
| DeltaFidelity.PatchLookup | packages/kodus-flow/src/kernel/persistor.ts:33-62 | Patching the old record with the delta gives the new record, key by key |
| DeltaFidelity.ComponentwisePatch | packages/kodus-flow/src/kernel/persistor.ts:84-137 | With component deltas the restored snapshot is the appended one |
| DeltaFidelity.WrappedPatch | packages/kodus-flow/src/kernel/persistor.ts:91-128 | With wrapper deltas it is the appended one exactly if nothing had changed |
| DeltaFidelity.WrappedRestores | packages/kodus-flow/src/kernel/persistor.ts:84-160 | What a wrapper delta restores to in general: the events of the base, and its state with the changed wrappers written under "events" and "state" |
| DeltaFidelity.RecordKind | packages/kodus-flow/src/kernel/persistor.ts:145-199 | A delta is stored exactly if asked for and worth it and the last listed hash has a record; it is against that record and is hollow |
| DeltaFidelity.EventsDelta | packages/kodus-flow/src/kernel/persistor.ts:22-31 | Component-wise the events delta is what stands behind the old events, if anything does; as written there is none |
| DeltaFidelity.DeletionsAppend | packages/kodus-flow/src/kernel/persistor.ts:52-57 | The deletions keep the order of the keys of the old record |
| DeltaFidelity.StateDeltaIff | packages/kodus-flow/src/kernel/persistor.ts:33-60 | A state delta is stored exactly if the text of a key changed or a key went |
| DeltaFidelity.ArrayBecomesObject | packages/kodus-flow/src/kernel/persistor.ts:84-90 | An array state restored through a delta comes back as an object with its items under their indices |
| DeltaFidelity.EventShape | packages/kodus-flow/src/kernel/persistor.ts:66-80 | An event is an object with id, type, data and ts |
| Persistor.MemoryPersistor.Append | packages/kodus-flow/src/kernel/persistor.ts:145-199 | One append changes the store as the written call does: whole, or as a wrapper delta on the last raw record |
| Persistor.MemoryPersistor.SaveSnapshot | packages/kodus-flow/src/kernel/persistor.ts:333-342 | A record replaces an older one of the same hash, and its hash is listed again |
| Persistor.MemoryPersistor.GetByHash | packages/kodus-flow/src/kernel/persistor.ts:288-290 | The record stored last under a hash |
| Persistor.MemoryPersistor.ListHashes | packages/kodus-flow/src/kernel/persistor.ts:296-298 | The hashes of an execution context in order of saving |
| Persistor.MemoryPersistor.LoadAll | packages/kodus-flow/src/kernel/persistor.ts:205-231 | Every listed hash is restored by one level of patching on the raw base record |
| DeltaFidelity.RestoresAppended | packages/kodus-flow/src/kernel/persistor.ts:145-231 | Whatever is stored for a snapshot restores to it as long as its base record stands |
| DeltaFidelity.LoadIsLog | packages/kodus-flow/src/kernel/persistor.ts:145-231 | With component deltas any sequence of appends with distinct hashes, mixed flags and any size outcomes loads as exactly the appended snapshots, in order |
| DeltaFidelity.WrappedAppend | packages/kodus-flow/src/kernel/persistor.ts:157-160 | With the written call, on any store, an append loads back exactly if it was stored whole or nothing had changed against the raw record before it; if that record is its own, only without events and with what the delta leaves of an empty state |
| DeltaFidelity.RepeatedHashLosesEvents | packages/kodus-flow/src/kernel/persistor.ts:176-189 | On any store a snapshot with the last listed hash appended again as a delta loads without events by the written call; component-wise its events come back exactly if it has none or the overwritten record had none |
| DeltaFidelity.RepeatedHashState | packages/kodus-flow/src/kernel/persistor.ts:176-189 | Component-wise its state comes back exactly if every field differs from the overwritten record |
| DeltaFidelity.RepeatedLoads | packages/kodus-flow/src/kernel/persistor.ts:205-231 | Every listing of the repeated hash loads as that delta on the hollow record |
| DeltaFidelity.OverwrittenElsewhere | packages/kodus-flow/src/kernel/persistor.ts:205-231 | Saving a stored hash again changes what the deltas on it restore to and nothing else |
| DeltaFidelity.OverwrittenBase | packages/kodus-flow/src/kernel/persistor.ts:145-231 | Appending a stored hash again, the last or not, leaves the events of a delta on it exactly if the new raw record has the old events, and its state exactly if the raw states agree in every field that the delta leaves alone |
| LruCache.LRUCache.Get | packages/kodus-flow/src/kernel/kernel.ts:43-51 | A hit returns the value and renews the access time, a miss changes nothing |
| LruCache.LRUCache.Set | packages/kodus-flow/src/kernel/kernel.ts:53-70 | A known key is updated in place; a new one is added after one eviction if the cache is full |
| LruCache.LRUCache.EvictLRU | packages/kodus-flow/src/kernel/kernel.ts:88-101 | The scan removes the first entry with the smallest access time, except under an empty key |
| LruCache.LRUCache.Delete | packages/kodus-flow/src/kernel/kernel.ts:76-78 | The entry of the key goes, the others stay |
| LruCache.SameVictim | packages/kodus-flow/src/kernel/kernel.ts:88-101 | The scan settles on the head of the recency list if and only if no entry before it in the Map has the same access time |
| LruCache.SimulateStep | packages/kodus-flow/src/kernel/kernel.ts:32-102 | An operation at the same or a later time corresponds to the operation on the recency list, with the same result, unless it evicts under such a tie |
| LruCache.StepIsExact | packages/kodus-flow/src/kernel/kernel.ts:32-102 | An operation keeps the cache equal to the recency list if and only if it does not evict under a tie |
| LruCache.Refinement | packages/kodus-flow/src/kernel/kernel.ts:32-102 | Over every run whose clock does not run backwards and whose evictions meet no tie the scanning cache returns what the recency list returns and ends with its entries |
| LruCache.RefinementIsExact | packages/kodus-flow/src/kernel/kernel.ts:32-102 | Over every run whose clock does not run backwards the cache is the recency list at every point if and only if no eviction meets a tie |
| LruCache.StrictIsUntied | packages/kodus-flow/src/kernel/kernel.ts:32-102 | With a strictly increasing clock no eviction meets a tie |
| LruCache.RefinementFromEmpty | packages/kodus-flow/src/kernel/kernel.ts:32-102 | From the empty cache, with a strictly increasing clock, results and entries are those of the recency list |
| LruCache.SizeBound | packages/kodus-flow/src/kernel/kernel.ts:60-63 | The cache never outgrows its capacity, whatever the clock does |
| LruCache.TieEvictsRecent | packages/kodus-flow/src/kernel/kernel.ts:92-97 | An instance: with equal access times the scan evicts the entry that was just read |
| LruCache.EmptyKeyStays | packages/kodus-flow/src/kernel/kernel.ts:99-101 | A full cache grows by one more entry exactly if the victim has the empty key |
| ExecutionKernel.ExecutionKernel.constructor | packages/kodus-flow/src/kernel/kernel.ts:158-194 | A new kernel is in the initial state |
| ExecutionKernel.ExecutionKernel.GetTenantContext | packages/kodus-flow/src/kernel/kernel.ts:2058-2082 | The tenant's or thread's record, created if missing; without isolation the whole context |
| ExecutionKernel.ExecutionKernel.GetContext | packages/kodus-flow/src/kernel/kernel.ts:575-607 | Makes the read step: cached value or stored value, which is then cached |
| ExecutionKernel.ExecutionKernel.SetContext | packages/kodus-flow/src/kernel/kernel.ts:612-661 | Makes the write step: stored at once, then queued with a timer, or cached |
| ExecutionKernel.ExecutionKernel.WriteCell | packages/kodus-flow/src/kernel/kernel.ts:624-633 | Writes one cell in place, creating the namespace, or fails on a value that is no record |
| ExecutionKernel.ExecutionKernel.IncrementContext | packages/kodus-flow/src/kernel/kernel.ts:666-676 | A read followed by a write of the sum |
| ExecutionKernel.ExecutionKernel.FlushContextUpdates | packages/kodus-flow/src/kernel/kernel.ts:1142-1161 | The loop writes every queued update under its cache key to context and cache and clears queue and timer; an empty queue leaves the timer alone |
| ExecutionKernel.ExecutionKernel.OnUpdateTimer | packages/kodus-flow/src/kernel/kernel.ts:645-648 | The debounce timer flushes |
| ExecutionKernel.ExecutionKernel.Initialize | packages/kodus-flow/src/kernel/kernel.ts:207-388 | Makes the initialize step for every outcome of its parts |
| ExecutionKernel.ExecutionKernel.SendEvent | packages/kodus-flow/src/kernel/kernel.ts:415-464 | Makes the send step: prepare context, emit, count, check quotas |
| ExecutionKernel.ExecutionKernel.CountEvent | packages/kodus-flow/src/kernel/kernel.ts:1288-1299 | The counted event pauses the kernel when the quota is used up |
| ExecutionKernel.ExecutionKernel.PrepareContextForEvent | packages/kodus-flow/src/kernel/kernel.ts:840-854 | Last event, its time, and without lazy loading the event history |
| ExecutionKernel.ExecutionKernel.Pause | packages/kodus-flow/src/kernel/kernel.ts:471-503 | Makes the pause step: flush, JSON copy in a new object, store, status |
| ExecutionKernel.ExecutionKernel.Resume | packages/kodus-flow/src/kernel/kernel.ts:508-542 | Makes the resume step: the snapshot's own object becomes the live context, cache and queue are emptied, the timer is not |
| ExecutionKernel.ExecutionKernel.Complete | packages/kodus-flow/src/kernel/kernel.ts:547-570 | Makes the complete step |
| ExecutionKernel.ExecutionKernel.Reset | packages/kodus-flow/src/kernel/kernel.ts:1356-1407 | Makes the reset step, also when the clean-up of the runtime fails |
| ExecutionKernel.ExecutionKernel.EnhancedCleanup | packages/kodus-flow/src/kernel/kernel.ts:1883-1915 | Makes the clean-up step |
| ExecutionKernel.ExecutionKernel.Clear | packages/kodus-flow/src/kernel/kernel.ts:1920-1975 | Makes the clear step |
| ExecutionKernel.ExecutionKernel.RecoverFromError | packages/kodus-flow/src/kernel/kernel.ts:1764-1790 | Makes the recovery step |
| ExecutionKernel.ExecutionKernel.SynchronizeStates | packages/kodus-flow/src/kernel/kernel.ts:1872-1878 | Repairs a status that disagrees with the runtime |
| KernelOutcomes.ResetForgets | packages/kodus-flow/src/kernel/kernel.ts:1347-1400 | A reset with a successful clean-up ends initialized, without runtime, events, queue and cache, and every cell reads undefined, whatever the configuration; otherwise it fails. Snapshots stay |
| KernelOutcomes.ClearForgets | packages/kodus-flow/src/kernel/kernel.ts:1920-1965 | So does clear; a failing clean-up leaves everything as it was |
| KernelOutcomes.CleanupKeeps | packages/kodus-flow/src/kernel/kernel.ts:1883-1918 | The clean-up alone keeps the stored values and the event count |
| KernelOutcomes.InitializeStarts | packages/kodus-flow/src/kernel/kernel.ts:207-345 | Only an initialized kernel starts, with the loaded values unless loaded lazily; a running one stays as it is; a failing start leaves a failed kernel |
| KernelOutcomes.InitializeReads | packages/kodus-flow/src/kernel/kernel.ts:925-985 | The first read after a start finds what was loaded, or what was there |
| KernelOutcomes.CompleteFlushes | packages/kodus-flow/src/kernel/kernel.ts:547-571 | Completing flushes: completed and idle, every cell reads as it was stored, and doing it again changes nothing |
| KernelOutcomes.PreparedContext | packages/kodus-flow/src/kernel/kernel.ts:840-862 | An event stores its type and time and ends the history, which is created if missing; nothing else changes |
| KernelOutcomes.SendCounts | packages/kodus-flow/src/kernel/kernel.ts:415-464 | An event that is prepared and taken is counted, and pauses the kernel exactly if it uses up the quota; any other is not counted |
| KernelOutcomes.PauseStores | packages/kodus-flow/src/kernel/kernel.ts:471-503 | Only a running kernel pauses, if the snapshot is stored; that has the event count and a JSON copy of the flushed context |
| KernelOutcomes.ResumeRestores | packages/kodus-flow/src/kernel/kernel.ts:508-542 | Only a paused kernel resumes a stored snapshot, with its event count and its context; otherwise nothing changes |
| KernelOutcomes.RecoverRestarts | packages/kodus-flow/src/kernel/kernel.ts:1764-1865 | Recovery starts the kernel anew or leaves it failed |
| KernelOutcomes.SynchronizeRepairs | packages/kodus-flow/src/kernel/kernel.ts:1872-1878 | Afterwards status and runtime agree, and only what disagreed has changed |
| KernelOutcomes.FalsyValues | packages/kodus-flow/src/kernel/kernel.ts:2058-2080 | The falsy values of JavaScript (section 7.1.2 of ECMA-262) |
| KernelOutcomes.KeyTexts | packages/kodus-flow/src/kernel/kernel.ts:582-584 | The texts of cache keys and record keys |
| KernelOutcomes.ThousandEntries | packages/kodus-flow/src/kernel/kernel.ts:149-149 | The cache grows up to a thousand entries, then a new one replaces one |
| KernelLifecycle.SynchronizedNext | packages/kodus-flow/src/kernel/kernel.ts:207-570 | Every step, however its environment behaves, keeps: running or paused has a runtime, initialized has none |
| KernelLifecycle.SynchronizedRun | packages/kodus-flow/src/kernel/kernel.ts:1872-1878 | At every method boundary of every run synchronizeStates has nothing to repair |
| KernelLifecycle.CapacityNext | packages/kodus-flow/src/kernel/kernel.ts:575-661 | Every step keeps the context cache within its capacity, whatever the clock does |
| KernelLifecycle.CapacityRun | packages/kodus-flow/src/kernel/kernel.ts:149-149 | After every run the context cache has at most 1000 entries, none twice |
| KernelLifecycle.QuotaNext | packages/kodus-flow/src/kernel/kernel.ts:1288-1316 | A step keeps a running or startable kernel under its event quota if and only if it is not one of four: an unstored quota pause, a resume at quota, a clean-up or a recovery at quota |
| KernelLifecycle.QuotaRun | packages/kodus-flow/src/kernel/kernel.ts:1288-1316 | Runs of safe steps keep the quota |
| KernelLifecycle.OrdinaryRun | packages/kodus-flow/src/kernel/kernel.ts:1288-1316 | On runs of initialize, sendEvent, pause, complete, reset, clear and context calls with successful persistence a running kernel is under its quota |
| KernelLifecycle.QuotaPauseResumesOverQuota | packages/kodus-flow/src/kernel/kernel.ts:1304-1316 | The snapshot of a quota pause resumes at quota |
| KernelLifecycle.ScheduledNext | packages/kodus-flow/src/kernel/kernel.ts:640-650 | A flush is scheduled exactly while updates are queued; only a resume that drops queued updates breaks this |
| KernelLifecycle.StrandedRun | packages/kodus-flow/src/kernel/kernel.ts:1142-1151 | Once the timer has fired on a queue that a resume emptied, context calls queue updates that no timer flushes |
| KernelLifecycle.ResumeStrands | packages/kodus-flow/src/kernel/kernel.ts:918-920 | Resuming with queued updates leads there |
| KernelCells.CacheKeyInjective | packages/kodus-flow/src/kernel/kernel.ts:582-584 | Colon-free identifiers: a cache key names one cell |
| KernelCells.ContextKeyInjective | packages/kodus-flow/src/kernel/kernel.ts:2066-2075 | Colon-free identifiers: a record key names one thread |
| KernelCells.CacheKeyIsNoContextKey | packages/kodus-flow/src/kernel/kernel.ts:582-584 | A cache key is no record key unless the tenant is called "tenant" |
| KernelCells.WriteCellReads | packages/kodus-flow/src/kernel/kernel.ts:624-633 | Under isolation a successful write changes its own cell and no other, a failed one none |
| KernelCoherence.CoherentGet | packages/kodus-flow/src/kernel/kernel.ts:575-607 | A read keeps the cache coherent, evictions included |
| KernelCoherence.CoherentSet | packages/kodus-flow/src/kernel/kernel.ts:612-661 | A write keeps the cache coherent |
| KernelCoherence.CoherentFlush | packages/kodus-flow/src/kernel/kernel.ts:1142-1161 | A flush keeps the cache coherent, empties the queue and changes no cell |
| KernelCoherence.CoherentPause | packages/kodus-flow/src/kernel/kernel.ts:471-503 | A pause keeps the cache coherent |
| KernelCoherence.CoherentSend | packages/kodus-flow/src/kernel/kernel.ts:415-464 | An event keeps the cache coherent |
| KernelCoherence.CoherentNext | packages/kodus-flow/src/kernel/kernel.ts:575-661 | Every admissible step keeps: each cached value is stored or its key is queued, and each queued value is stored |
| KernelCoherence.CoherentRun | packages/kodus-flow/src/kernel/kernel.ts:575-661 | After every admissible run the cache is coherent |
| KernelShape.SetNeverThrows | packages/kodus-flow/src/kernel/kernel.ts:612-661 | After every admissible run setContext succeeds: records only ever hold namespaces |
| KernelCaching.CoherenceIsExact | packages/kodus-flow/src/kernel/kernel.ts:575-661 | All admissible runs are coherent if and only if tenants are isolated and batching is off or the tenant is not "tenant" |
| KernelCaching.SharedCell | packages/kodus-flow/src/kernel/kernel.ts:2062-2064 | Without isolation a second thread makes the cached or queued value of the first one stale |
| KernelCaching.OverwrittenRecord | packages/kodus-flow/src/kernel/kernel.ts:1154-1156 | For the tenant "tenant" one flush can overwrite a thread's record |
| KernelCaching.ReadsStore | packages/kodus-flow/src/kernel/kernel.ts:587-606 | A read returns the stored value unless an update of that cell is queued |
| KernelCaching.FlushedReads | packages/kodus-flow/src/kernel/kernel.ts:1142-1161 | After a flush cached reads return what was stored before it |
| KernelCaching.CachingIsTransparent | packages/kodus-flow/src/kernel/kernel.ts:575-607 | Unbatched, callers of any admissible run see the same values with and without the cache |
| KernelCaching.SetThenGet | packages/kodus-flow/src/kernel/kernel.ts:575-661 | A read after a write returns it, unless the write is batched and an older value is cached |
| KernelCaching.IncrementTwice | packages/kodus-flow/src/kernel/kernel.ts:666-676 | Two increments add up unless updates are batched and reads are cached; then the second starts from the old value |
| KernelPause.HoldsRun | packages/kodus-flow/src/kernel/kernel.ts:906-920 | A stored snapshot stays as it is through every run that neither resumes it nor stores its hash again |
| KernelPause.CopiedCell | packages/kodus-flow/src/kernel/kernel.ts:1014-1025 | A cell of the JSON copy of a context is the JSON copy of the cell |
| KernelPause.PauseResume | packages/kodus-flow/src/kernel/kernel.ts:471-542 | After any such run the first resume restores the paused event count and every cell: the JSON copy of what was stored, that very value if it is JSON |
| KernelValid.SaneRun | packages/kodus-flow/src/kernel/kernel.ts:415-661 | Through every run whose inputs are JavaScript values, every context object keeps one field per key and holds only values |
| KernelValid.PauseResumeRun | packages/kodus-flow/src/kernel/kernel.ts:471-542 | The round trip from a new kernel: after any admissible run, a pause, and any run that spares its snapshot, the first resume restores the event count and every cell, a JSON value as that very value |
| KernelPause.SecondResume | packages/kodus-flow/src/kernel/kernel.ts:909-915 | After any run that leaves the resumed context in place a second resume of the same hash finds the live context of that moment, in every cell, beside the old event count |
| KernelPause.LiveRun | packages/kodus-flow/src/kernel/kernel.ts:508-542 | A resumed context stays the stored object of the snapshot through every run that neither replaces the context nor stores the hash again |
| KernelPause.SecondResumeFindsWrite | packages/kodus-flow/src/kernel/kernel.ts:909-915 | So a value written between two resumes of a hash is read after the second |
| AtomicOps.OperationGate.Begin | packages/kodus-flow/src/kernel/kernel.ts:1985-2002 | An operation is admitted or refused before it runs; a refusal changes nothing |
| AtomicOps.OperationGate.End | packages/kodus-flow/src/kernel/kernel.ts:2024-2027 | A finished operation leaves the pending set |
| AtomicOps.OperationGate.ResetPending | packages/kodus-flow/src/kernel/kernel.ts:1371-1383 | A reset puts a new empty set in place |
| AtomicOps.OperationGate.SaveSnapshot | packages/kodus-flow/src/kernel/kernel.ts:876-889 | A snapshot shares the pending set of the state it is taken of |
| AtomicOps.OperationGate.RestoreFromSnapshot | packages/kodus-flow/src/kernel/kernel.ts:906-915 | A resume puts the pending set of the snapshot back |
| AtomicOps.ExactIffHarmless | packages/kodus-flow/src/kernel/kernel.ts:1977-2030 | Under every interleaving of starts, settlements, snapshots, resets and resumes the pending set is exactly the active ids at every point if and only if no reset and no resume of another set meets an active operation |
| AtomicOps.Interleavings | packages/kodus-flow/src/kernel/kernel.ts:1977-2030 | On every run whose resets and resumes are harmless no two active operations share an id, the limit holds, and when all have settled or timed out the pending set is empty |
| AtomicOps.AdmissionIsExact | packages/kodus-flow/src/kernel/kernel.ts:1985-1997 | An operation is refused exactly if one with its id is active or the limit is reached |
| AtomicOps.NeverOverLimit | packages/kodus-flow/src/kernel/kernel.ts:1991-2002 | Whatever resets and resumes do, the pending set never outgrows the limit |
| AtomicOps.ResetIsExact | packages/kodus-flow/src/kernel/kernel.ts:1382-1382 | A reset keeps the pending set exact if and only if no operation is active |
| AtomicOps.ResetLosesId | packages/kodus-flow/src/kernel/kernel.ts:1382-1382 | In every state, after a reset an operation of before it frees the id of a running one, which then starts twice |
| AtomicOps.ResumeForgets | packages/kodus-flow/src/kernel/kernel.ts:906-915 | After a harmless reset, resuming a snapshot of before it drops what runs, and a second operation with its id starts |
| Requests.RequestManager.Request | packages/kodus-flow/src/core/events-unified.ts:116-139 | A request is pending, timed and listened for |
| Requests.RequestManager.RespondTo | packages/kodus-flow/src/core/events-unified.ts:141-162 | The response handler: a failure rejects its own promise, a success resolves the pending one |
| Requests.RequestManager.OnTimeout | packages/kodus-flow/src/core/events-unified.ts:127-130 | The timeout rejects and forgets, and leaves the listener |
| Requests.RequestManager.CleanupExpiredRequests | packages/kodus-flow/src/core/events-unified.ts:317-334 | The sweep loop rejects and forgets exactly the requests older than five minutes |
| Requests.RequestManager.Cleanup | packages/kodus-flow/src/core/events-unified.ts:355-368 | Shutdown rejects all pending requests and removes all listeners |
| Requests.RequestWaits | packages/kodus-flow/src/core/events-unified.ts:116-165 | A new request is unsettled, pending since now, timed and listened for |
| Requests.OffOne | packages/kodus-flow/src/core/events-unified.ts:141-162 | Removing a listener removes its first occurrence and keeps the order of the others |
| Requests.TimeoutSettles | packages/kodus-flow/src/core/events-unified.ts:127-140 | A timeout settles its own request if still unsettled, and no other |
| Requests.SweepSettles | packages/kodus-flow/src/core/events-unified.ts:317-345 | A sweep settles exactly what has been pending for more than five minutes |
| Requests.ShutdownSettles | packages/kodus-flow/src/core/events-unified.ts:355-375 | Shutdown settles exactly what is unsettled |
| Requests.CallsGrow | packages/kodus-flow/src/core/events-unified.ts:116-375 | Nothing is taken back: whatever the step, the calls of a promise so far stay, in order, and with them the one that counts |
| Requests.SoundRequest | packages/kodus-flow/src/core/events-unified.ts:116-139 | A request keeps the protocol sound if and only if its id is neither pending nor still listened for |
| Requests.Protocol | packages/kodus-flow/src/core/events-unified.ts:116-178 | With unique ids, after every interleaving an id is pending if and only if it was issued and is unsettled, and nothing settles twice |
| Requests.CleanupSettlesAll | packages/kodus-flow/src/core/events-unified.ts:355-368 | After shutdown every request ever issued has settled exactly once |
| Requests.ResponseReachesCaller | packages/kodus-flow/src/core/events-unified.ts:141-162 | A response settles the pending request of its id and type with its payload, and no other |
| Requests.ReusedIdHangs | packages/kodus-flow/src/core/events-unified.ts:127-164 | A reused id can leave a request unsettled, not pending and not timed |
| Bridges.MultiKernelManager.constructor | packages/kodus-flow/src/kernel/multi-kernel-manager.ts:34-44 | The table of bridges in Map order, later ones replacing earlier ones of the same key |
| Bridges.OneBridgePerPair | packages/kodus-flow/src/kernel/multi-kernel-manager.ts:38-43 | Each ordered pair of namespaces has at most one bridge |
| Bridges.InstallPlaces | packages/kodus-flow/src/kernel/multi-kernel-manager.ts:38-43 | A bridge takes the place of the one with its key, or the last place if there is none |
| Bridges.KeyIsPair | packages/kodus-flow/src/kernel/multi-kernel-manager.ts:40-41 | If no source contains "->" a key stands for one pair |
| Bridges.KeysCollideIff | packages/kodus-flow/src/kernel/multi-kernel-manager.ts:40-41 | Keys of different pairs are equal if and only if one pair is s, m->t and the other s->m, t |
| Bridges.KeysCollide | packages/kodus-flow/src/kernel/multi-kernel-manager.ts:40-41 | Of two such bridges, for every s, m and t, only the later one is installed |
| Bridges.MatchesEventPattern | packages/kodus-flow/src/kernel/multi-kernel-manager.ts:287-294 | A pattern ending in "*" matches by prefix, any other by equality |
| Bridges.RelayIff | packages/kodus-flow/src/kernel/multi-kernel-manager.ts:200-260 | An event goes over a bridge exactly if it arrived at its source, matches its pattern, is transformed, and a running kernel of the target accepts it |
| Bridges.MultiKernelManager.FindKernelByNamespace | packages/kodus-flow/src/kernel/multi-kernel-manager.ts:299-309 | The first running kernel of the namespace, if there is one |
| Bridges.MultiKernelManager.HandleCrossKernelEvent | packages/kodus-flow/src/kernel/multi-kernel-manager.ts:200-281 | The loop over the bridges emits and logs what the specification says, failures included |
| Bridges.EmissionsAreHops | packages/kodus-flow/src/kernel/multi-kernel-manager.ts:200-281 | An event is forwarded exactly where a matching bridge takes it |
| Bridges.OneEmissionPerPair | packages/kodus-flow/src/kernel/multi-kernel-manager.ts:200-281 | Handling one event sends at most one event over each ordered pair |
| Bridges.LoggedIff | packages/kodus-flow/src/kernel/multi-kernel-manager.ts:241-280 | A bridge logs at most one entry; it is a failure exactly if the event matches and the transform throws or a running target refuses, and a success exactly if the event was forwarded and logging is on |
| Bridges.LogIsFaithful | packages/kodus-flow/src/kernel/multi-kernel-manager.ts:241-253 | The logged successes are the emissions over the bridges that log, in order: all emissions with logging on globally |
| Propagation.EveryEventHasAnOrigin | packages/kodus-flow/src/kernel/multi-kernel-manager.ts:187-281 | Every event that arrives has a chain of matching bridges back to an original one |
| Propagation.EdgeLowersRank | packages/kodus-flow/src/kernel/multi-kernel-manager.ts:200-281 | Over acyclic bridges every hop lowers the number of reachable namespaces |
| Propagation.PropagationEnds | packages/kodus-flow/src/kernel/multi-kernel-manager.ts:187-281 | Over acyclic bridges no run outlasts a measure of the initial events: propagation ends |
| Propagation.CyclesRunForever | packages/kodus-flow/src/kernel/multi-kernel-manager.ts:187-281 | An event on a cycle of catch-all bridges circulates for ever |
| Propagation.EndsIffAcyclic | packages/kodus-flow/src/kernel/multi-kernel-manager.ts:187-281 | Where everything is forwarded, propagation ends from all events if and only if the bridges are acyclic |
| Batches.CreateOptimizedBatches | src/shared/utils/batch.helper.ts:1-30 | The loop slices the items by the computed size |
| Batches.OptimalBatches | src/shared/utils/batch.helper.ts:8-30 | The batches partition the items in order, none is empty or over the limit, all but the last are equal, the last falls short by less than their number, and no partition within the limit has fewer |
| Batches.MaximumIsUnused | src/shared/utils/batch.helper.ts:16-23 | With ordered limits the maximum never matters |
| Batches.MaximumIsExceeded | src/shared/utils/batch.helper.ts:16-23 | A batch exceeds the maximum exactly if the items fit the minimum but not the maximum |
| PrLevelBatches.DetermineBatchConfig | src/ee/codeBase/kodyRulesPrLevelAnalysis.service.ts:656-673 | Between one and ten concurrent chunks, a delay exactly if there is more than one batch, three attempts |
| PrLevelBatches.ProcessChunkWithRetry | src/ee/codeBase/kodyRulesPrLevelAnalysis.service.ts:792-893 | The result of the first attempt that succeeds, or none if all fail, with bounded waits in between |
| PrLevelBatches.AttemptIsFirst | src/ee/codeBase/kodyRulesPrLevelAnalysis.service.ts:792-893 | The recursion that the loops are compared with gives the first success, and none only if every attempt fails |
| PrLevelBatches.ProcessBatchInParallel | src/ee/codeBase/kodyRulesPrLevelAnalysis.service.ts:757-787 | In whatever order the chunks of a batch finish, each result is at the place of its chunk |
| PrLevelBatches.ProcessChunksInBatches | src/ee/codeBase/kodyRulesPrLevelAnalysis.service.ts:676-752 | Whatever the concurrency and the order in which chunks finish, every chunk is taken once, in order, and the result is that of a sequential pass |
| PrLevelBatches.ProcessAll | src/ee/codeBase/kodyRulesPrLevelAnalysis.service.ts:572-652 | The same for the configuration that the number of chunks selects |
| PrLevelGrouping.DeduplicateViolatedRules | src/ee/codeBase/kodyRulesPrLevelAnalysis.service.ts:1071-1092 | The loop merges rules by id in a Map |
| PrLevelGrouping.DedupeOrder | src/ee/codeBase/kodyRulesPrLevelAnalysis.service.ts:1071-1092 | The result has the distinct non-empty ids in order of first report |
| PrLevelGrouping.DedupeConserves | src/ee/codeBase/kodyRulesPrLevelAnalysis.service.ts:1071-1092 | Each rule keeps all its violations, in report order |
| PrLevelGrouping.MapViolatedRulesToSuggestions | src/ee/codeBase/kodyRulesPrLevelAnalysis.service.ts:1496-1525 | The loops make one suggestion of each violation |
| PrLevelGrouping.SuggestionsCarry | src/ee/codeBase/kodyRulesPrLevelAnalysis.service.ts:1496-1525 | The suggestions about a rule carry exactly its violations, in order, and each is about one rule |
| PrLevelGrouping.GroupSuggestionsByRule | src/ee/codeBase/kodyRulesPrLevelAnalysis.service.ts:1196-1213 | The loops collect the suggestions of each id in order |
| PrLevelGrouping.GroupMembers | src/ee/codeBase/kodyRulesPrLevelAnalysis.service.ts:1196-1213 | For suggestions about one rule each, every rule has one group with exactly its suggestions, in order |
| PrLevelGrouping.GroupMentions | src/ee/codeBase/kodyRulesPrLevelAnalysis.service.ts:1196-1213 | For suggestions about any number of rules, the group of a rule has those that name it, in order |
| PrLevelGrouping.GroupDuplicateSuggestions | src/ee/codeBase/kodyRulesPrLevelAnalysis.service.ts:1094-1194 | Groups of more than one are consolidated if the rule is configured, and everything else is kept |
| PrLevelGrouping.GroupedAbout | src/ee/codeBase/kodyRulesPrLevelAnalysis.service.ts:1094-1194 | After grouping a configured rule with several suggestions has the one they are consolidated to, any other keeps its suggestions in order |
| PrLevelGrouping.CombineChunkResults | src/ee/codeBase/kodyRulesPrLevelAnalysis.service.ts:1009-1057 | The pipeline from reports to grouped comments |
| PrLevelGrouping.OneCommentPerRule | src/ee/codeBase/kodyRulesPrLevelAnalysis.service.ts:1009-1213 | For any reports and any model answers: exactly one comment for a configured rule with a violation, none for a rule without, and one per violation for an unconfigured rule |
| PrLevelGrouping.CommentsCarry | src/ee/codeBase/kodyRulesPrLevelAnalysis.service.ts:1040-1120 | The comments about an unconfigured rule, or one with a single violation, carry exactly its reported violations in order; those of any other rule are consolidated from suggestions that do |
| Vectors.CalculateCosineSimilarity | src/ee/kodyFineTuning/kodyFineTuning.service.ts:731-736 | The quotient times the magnitudes is the dot product, and it lies between -1 and 1 |
| Vectors.CauchySchwarz | src/ee/kodyFineTuning/kodyFineTuning.service.ts:731-736 | The squared dot product is at most the product of the squared norms |
| Vectors.DotCons | src/ee/kodyFineTuning/kodyFineTuning.service.ts:731-736 | The dot product adds up the products of the components, from the front as well as from the back |
| Vectors.GroupingIsExact | src/ee/kodyFineTuning/kodyFineTuning.service.ts:892-902 | Every cluster gets its members, in order, once |
| Vectors.ClustersPartition | src/ee/kodyFineTuning/kodyFineTuning.service.ts:892-902 | Cluster sizes add up to the number of suggestions, and cluster sums to the total sum, in every dimension |
| Vectors.Centroid | src/ee/kodyFineTuning/kodyFineTuning.service.ts:905-921 | The accumulating and dividing loops: the centroid times the cluster size is the member sum in every dimension |
| Vectors.CalculateClusterCentroids | src/ee/kodyFineTuning/kodyFineTuning.service.ts:889-925 | Every cluster with members, and no other, gets one centroid, the mean of its members |
| FineTuning.DefineFineTuningDecisionBySimilarity | src/ee/kodyFineTuning/kodyFineTuning.service.ts:801-834 | The counting loop computes the majority of sufficiently similar votes |
| FineTuning.VoteIgnoresOrder | src/ee/kodyFineTuning/kodyFineTuning.service.ts:794-798 | Sorting by similarity does not change the decision |
| FineTuning.PositiveNeverHurts | src/ee/kodyFineTuning/kodyFineTuning.service.ts:801-834 | More positive feedback never turns a suggestion to discard, nor a kept one to anything else |
| FineTuning.VoteOf | src/ee/kodyFineTuning/kodyFineTuning.service.ts:801-834 | Liked and implemented suggestions vote to keep, disliked and neutral ones to discard, from their threshold on |
| FineTuning.MajorityDecides | src/ee/kodyFineTuning/kodyFineTuning.service.ts:801-834 | More votes decide, as many leave it open |
| FineTuning.AnalyzeClusterFeedback | src/ee/kodyFineTuning/kodyFineTuning.service.ts:836-887 | An empty cluster is uncertain, a unanimous one decides, otherwise the vote does |
| FineTuning.FeedbackDecides | src/ee/kodyFineTuning/kodyFineTuning.service.ts:738-770 | A cluster only liked or implemented keeps, one only disliked discards, whatever the similarities, and an empty one is uncertain |
| FineTuning.MostSimilar | src/ee/kodyFineTuning/kodyFineTuning.service.ts:682-694 | The most similar centroid, the first of equals |
| FineTuning.DiscardedIff | src/ee/kodyFineTuning/kodyFineTuning.service.ts:666-887 | Discarded if and only if the best centroid is similar enough and its cluster is all negative, or mixed with more similar votes against than for |
| FineTuning.CompareSuggestionsWithClusters | src/ee/kodyFineTuning/kodyFineTuning.service.ts:666-729 | Computes the centroids, chooses the most similar one and decides by its cluster |
| FineTuning.CentroidIsMean | src/ee/kodyFineTuning/kodyFineTuning.service.ts:889-925 | Each centroid compared with is the mean of the members of its cluster, of which there are some |
| FineTuning.DiscardedByMeans | src/ee/kodyFineTuning/kodyFineTuning.service.ts:666-887 | With the computed centroids, discarded if and only if the cluster whose mean is the most similar speaks against the suggestion |
| FineTuning.DecisionByMeans | src/ee/kodyFineTuning/kodyFineTuning.service.ts:951-1031 | The same for the whole decision, with exempt suggestions and too few comparisons |
| FineTuning.LimitsKeep | src/ee/kodyFineTuning/kodyFineTuning.service.ts:690-1000 | Fewer than fifty suggestions to compare with keep, and means all below 0.6 leave it open |
| FineTuning.OwnLanguage | src/ee/kodyFineTuning/kodyFineTuning.service.ts:927-950 | Suggestions are compared with the clusters of their language |
| FineTuning.AnalyzeWithClusterization | src/ee/kodyFineTuning/kodyFineTuning.service.ts:951-1031 | The loop with its two filters returns the kept and the discarded suggestions; without clusters all are kept |
| FineTuning.ChosenPartition | src/ee/kodyFineTuning/kodyFineTuning.service.ts:951-1031 | Kept and discarded partition the input; rule and breaking-change suggestions, and those with fewer than fifty comparisons, are never discarded |
| FineTuning.ChosenInOrder | src/ee/kodyFineTuning/kodyFineTuning.service.ts:1011-1031 | Both lists keep the order of the input |
| Directories.ExtractUniqueDirectoryPaths | src/ee/codeBase/codeBaseConfig.service.ts:1390-1404 | The nested loops collect the directories above each file, deepest first, without repetition |
| Directories.UniquePathsMembers | src/ee/codeBase/codeBaseConfig.service.ts:1390-1404 | The result is duplicate-free and has exactly the text before each slash of each file name |
| Directories.UniquePathsOrder | src/ee/codeBase/codeBaseConfig.service.ts:1390-1404 | A further file leaves the paths so far in place and adds its own behind them, deepest first |
| Directories.ParentsIncluded | src/ee/codeBase/codeBaseConfig.service.ts:1390-1404 | With a directory the result has all its parents |
| Directories.FilterDirectories | src/ee/codeBase/codeBaseConfig.service.ts:1169-1181 | The affected directories, in order |
| Directories.TouchesIff | src/ee/codeBase/codeBaseConfig.service.ts:1163-1181 | A path touches a directory exactly if it is the directory or continues it behind a slash, one leading slash of each aside |
| Directories.ResolveConfig | src/ee/codeBase/codeBaseConfig.service.ts:1169-1202 | A directory is chosen exactly if it is the only affected one |
| Directories.DirectoryMatches | src/ee/codeBase/codeBaseConfig.service.ts:1163-1181 | A configured directory is affected by a change if and only if the change has a file below it, one leading slash aside |
| Directories.RootMatches | src/ee/codeBase/codeBaseConfig.service.ts:1163-1181 | The root directory is affected exactly by file names with a leading slash |
| Directories.SelectableIff | src/ee/codeBase/codeBaseConfig.service.ts:1169-1202 | A configured directory is selected by some change if and only if no other configured directory contains it or is the same |
| Directories.NestedSelectsNeither | src/ee/codeBase/codeBaseConfig.service.ts:1169-1202 | A change that affects a directory covered by another configured one selects no directory at all |

## Left out

Contracts that are weaker than the whole of what they describe:

- PatchTheorem.ToolChain: a patch whose first line is no header or a header that quotes the "no newline" remark, one with malformed "@@" lines, and body lines that start with a digit are excluded, and the equivalence is about file names that read like no numbered line (`PatchTheorem.OneLineName`); line numbers are unbounded integers, while `parseInt` is exact only up to 2^53.
- PatchPruneLaws.PruneIsPrefix: a patch whose first line is no header is excluded, and so are malformed "@@" lines, which the pruning drops (`PatchPrune.OmitDeletionHunks` covers both).
- JsonCanonical.StringifyCanonical: keys with a quote and a colon in a row are excluded; `JsonScan.SingleKeyReads` says what a single such key reads like among values whose keys need no escaping. Values with quotes in their keys are compared only where the last value is the same (`JsonScan.SameLastValue`), as `JsonScan.LastValuesDiffer` shows more; several such keys in one object are not characterised.
- JsonReader.StringifyReads: objects with a key that needs escaping are excluded, as the deterministic text does not escape keys and then need not be JSON.
- DeltaFidelity.LoadIsLog: it is about component deltas, as `applyDelta` reads them; the call as written is `DeltaFidelity.WrappedAppend`.
- KernelCoherence.CoherentRun: identifiers with a colon, context calls before an `initialize` that replaces the context, and recovery under a filled cache are excluded, as those replace or confuse cells under the cache.
- KernelValid.PauseResumeRun: the hash of the snapshot is a parameter, so that no later snapshot gets the same hash is an assumption.
- Requests.Protocol: responses are raw `emit` calls with the correlation id at top level, where the handler reads it; `respond` nests it under `metadata`.
- Bridges.MultiKernelManager.HandleCrossKernelEvent: the tenant, operation id and time that the receiving kernel adds to an event's data are not part of the event.
- Batches.OptimalBatches: limits are positive integers; with a limit of 0 the original divides by zero.
- Vectors.CalculateCosineSimilarity: reals instead of doubles, vectors of one dimension and not zero; the square root is a parameter.
- FineTuning.DiscardedByMeans: all embeddings have one length, as one model makes them; otherwise the original's sums are not numbers.
- PrLevelGrouping.OneCommentPerRule: rule ids that look like array indices, which JavaScript would list first, may change the order but not the number of comments; the text of a consolidated comment is any function of its group.

What the model does not have:

- Interleavings inside one asynchronous method of the kernel or the store: each method is one step of a sequential run. Interleavings are modelled where they are the point: atomic operations, requests and bridges.
- Duration and memory quotas, automatic snapshots, dead-letter and recovery timers, middleware, statistics and the forwarding of runtime calls in `kernel.ts`.
- The fields of the kernel state that no modelled method reads: ids, start time, state data, last operation.
- Values that JSON does not have: dates, functions, cyclic objects, properties of arrays and primitive values, keys of the prototype chain, and the sharing of one object between two cells. A write through a value that is no record ends in an error in the model.
- JavaScript's addition: an increment takes the sum as a parameter.
- Lower-casing beyond ASCII, and strings with lone surrogates.
- `snapshot.ts` beyond printing and hashing, and the 20 per cent size test of `append`, whose outcome is arbitrary.
- Starting, pausing and resuming several kernels, and redelivery by the runtime, in `multi-kernel-manager.ts`.
- Prompts, model calls, token chunking, severities and links in the PR-level analysis; deduplication merges values, not rule objects.
- k-means, embedding, data synchronisation and the configured thresholds in the fine tuning; cluster labels and thresholds are inputs.
- Building a configuration once a directory is chosen, and the fall-back to the base configuration when something throws.
- The runtime, the context service and the other persistors are not part of this model.
