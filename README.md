# The Fabric Experience: experience storages in Dafny

This project models the experience-storage API of The Fabric Experience, a Minecraft (Fabric)
mod, and proves properties of that model. An experience storage holds a non-negative amount of
experience. It offers `insert` and `extract` inside a transaction, and the transaction can be
committed or aborted. The model covers:

- the `ExperienceStorage` interface contract and its `EMPTY` storage (`ExperienceStorages`);
- `SimpleExperienceStorage`, a tank with a fixed capacity and fixed per-call rate limits (`SimpleStorage`);
- `SimpleSidedExperienceContainer`, where seven side facades share one amount (`SidedContainer`);
- the two item-backed storages, `SimpleItemExperienceStorageImpl` and `FixedExtractOnlyItemExperienceStorageImpl`, with their whole-stack conversion `trySetExperience` (`ItemStorages`);
- `DelegatingExperienceStorage`, the validity guard (`Delegating`);
- the factories and the item-lookup fallback (`ExperienceImpl`);
- the `stored_xp` helpers of `SimpleExperienceStorageItem` (`StoredExperience`).

Three pieces come from the Fabric Transfer API: the snapshot protocol (`SnapshotParticipant`),
nested transactions, and `ContainerItemContext`. Their source is not part of this model, so the
model writes down their documented behaviour:

- Each participant keeps a journal mapping a transaction depth to a snapshot (`Transactions`).
- A snapshot is taken before the first mutation at a depth.
- An abort restores the snapshot.
- A nested commit hands the snapshot to the enclosing depth, unless that depth already holds one.
- An outer commit fires the final-commit hook.

Rollback and nested-commit laws are proved for any run of mutations and nested transactions (`Transactions.Run`).
A transaction is represented by its nesting depth: 0 for an outer transaction, and one more for
each nested transaction opened inside it (`TransactionContext.OpenNested`).

A `ContainerItemContext` is a single slot (`ItemContext`). It holds `count` units of one item
variant. The surrounding inventory lets at most `releaseLimit` units out and takes at most
`acceptLimit` units in per call. These limits are how a whole-stack conversion can fail.

Java `long`s are unbounded integers here. Java's `/` truncates toward zero, so the item
storages use `StorageLimits.TruncDiv` for it. Java's interface becomes the closed sum
`ExperienceStorages.DirectStorage`, with a function or method per operation. The interface
contract is stated once, on those dispatchers: within the request, nothing when unsupported,
never past the capacity, and the amount changes by exactly what was reported.

One might expect an item storage on an empty stack to return 0. It does not: the item
storages divide by the stack count without checking it, so an empty stack is a division by
zero, which only the delegating guard prevents. The model follows the code. So
`SimpleItemExperienceStorageImpl` and `FixedExtractOnlyItemExperienceStorageImpl` require
`ctx.count > 0`. The guard's `ValidActsAsBacking` proves that this holds whenever the guard
forwards. The same storages never reject a negative `maxAmount` (they return 0 for it), and
the model keeps that.

All source paths below are under `src/main/java/de/dafuqs/thefabricexperience/`, written out in full.

## Model

| member | source | states |
|---|---|---|
| Transactions.UpdateSnapshotsKeepsFirst | src/main/java/de/dafuqs/thefabricexperience/api/storage/base/SimpleExperienceStorage.java:50 | only the first `updateSnapshots` at a depth records a snapshot; later calls at that depth keep it |
| Transactions.UpdateSnapshots | src/main/java/de/dafuqs/thefabricexperience/api/storage/base/SimpleExperienceStorage.java:49-51 | `updateSnapshots` records the depth; a depth seen for the first time gets the current state, and every snapshot already held, at this depth or another, is kept |
| Transactions.OnClose | src/main/java/de/dafuqs/thefabricexperience/api/storage/base/SimpleExperienceStorage.java:33-36 | `onClose` drops the closed depth; a participant without a snapshot there is untouched; an abort restores the snapshot; a commit keeps the current state and hands the snapshot to the parent depth unless it holds one; the final-commit hook fires exactly on an outer commit of a participant holding a snapshot; other depths are untouched |
| Transactions.OpenKeepsConsistent | src/main/java/de/dafuqs/thefabricexperience/api/storage/base/SimpleExperienceStorage.java:28-36 | opening a nested transaction keeps every open depth able to restore the state it was entered with |
| Transactions.MutateKeepsConsistent | src/main/java/de/dafuqs/thefabricexperience/api/storage/base/SimpleExperienceStorage.java:49-52 | a mutation preceded by `updateSnapshots` keeps every open depth able to restore its entry state |
| Transactions.CloseKeepsConsistent | src/main/java/de/dafuqs/thefabricexperience/api/storage/base/SimpleExperienceStorage.java:33-36 | closing the innermost depth restores its entry state on abort and keeps the current state on commit; the enclosing depths stay consistent |
| Transactions.RunKeepsConsistent | src/main/java/de/dafuqs/thefabricexperience/api/storage/base/SimpleExperienceStorage.java:28-36 | any sequence of mutations and nested transactions keeps the journal consistent with the open depths |
| Transactions.AbortedNestedIsInvisible | src/main/java/de/dafuqs/thefabricexperience/impl/storage/SimpleItemExperienceStorageImpl.java:53-58 | whatever runs in an aborted nested transaction, the participant gets back the state it had on entry, and the parent stays open and consistent |
| Transactions.CommittedNestedIsVisible | src/main/java/de/dafuqs/thefabricexperience/impl/storage/SimpleItemExperienceStorageImpl.java:53-56 | what a committed nested transaction did stays visible in the parent, which stays consistent |
| Transactions.OuterAbortRestores | src/main/java/de/dafuqs/thefabricexperience/api/storage/base/SimpleExperienceStorage.java:28-36 | aborting an outer transaction gives every participant back its state from before the transaction |
| Transactions.RunKeys | src/main/java/de/dafuqs/thefabricexperience/api/storage/base/SimpleExperienceStorage.java:49-55 | after a run, no deeper depth is left open, shallower depths keep their snapshots, and the run's depth holds a snapshot iff it did before or the run mutated outside aborted nested transactions |
| Transactions.FinalCommitIffMutated | src/main/java/de/dafuqs/thefabricexperience/api/storage/base/SimpleExperienceStorage.java:10 | the final-commit hook fires on outer commit exactly when the transaction changed the participant outside aborted nested transactions |
| StorageLimits.Min | src/main/java/de/dafuqs/thefabricexperience/api/storage/base/SimpleExperienceStorage.java:47 | `Math.min`: a lower bound of both arguments that equals one of them |
| StorageLimits.Clamp | src/main/java/de/dafuqs/thefabricexperience/api/storage/base/SimpleExperienceStorage.java:47-55 | the three-way clamped move is non-negative; it is positive iff rate, request and room all are, and then it is within each and equals one of them |
| StorageLimits.ClampIsGreatest | src/main/java/de/dafuqs/thefabricexperience/api/storage/base/SimpleExperienceStorage.java:47 | no amount allowed by all three bounds exceeds the clamped move |
| StorageLimits.TruncDiv | src/main/java/de/dafuqs/thefabricexperience/impl/storage/SimpleItemExperienceStorageImpl.java:72 | Java's `/`: agrees with floor division on non-negative dividends and is never positive for non-positive ones |
| StorageLimits.TruncDivCancel | src/main/java/de/dafuqs/thefabricexperience/impl/storage/SimpleItemExperienceStorageImpl.java:73 | `getAmount() / count` gives back the per-unit amount exactly, whatever its sign |
| StorageLimits.TruncDivPositive | src/main/java/de/dafuqs/thefabricexperience/impl/storage/SimpleItemExperienceStorageImpl.java:72 | `maxAmount / count` is positive iff the request covers one per unit |
| StorageLimits.PerUnitWithinRequest | src/main/java/de/dafuqs/thefabricexperience/impl/storage/SimpleItemExperienceStorageImpl.java:72-78 | a per-unit delta within `maxAmount / count`, spread over `count` units, stays within `maxAmount` |
| StorageLimits.QuotientIsGreatest | src/main/java/de/dafuqs/thefabricexperience/impl/storage/SimpleItemExperienceStorageImpl.java:72 | one more per unit than the floor quotient would exceed the request |
| ItemContext.ItemStack.constructor | src/main/java/de/dafuqs/thefabricexperience/impl/storage/SimpleItemExperienceStorageImpl.java:48 | `toStack` makes a stack of the given variant and count |
| ItemContext.ContainerItemContext.UpdateSnapshots | src/main/java/de/dafuqs/thefabricexperience/impl/storage/SimpleItemExperienceStorageImpl.java:54 | the slot snapshots its variant and count on its first change at a depth |
| ItemContext.ContainerItemContext.Extract | src/main/java/de/dafuqs/thefabricexperience/impl/storage/SimpleItemExperienceStorageImpl.java:54 | removes up to the request, the stack and the release limit, only of the exact variant held; an emptied slot is blank; snapshots only when something moves |
| ItemContext.ContainerItemContext.Insert | src/main/java/de/dafuqs/thefabricexperience/impl/storage/SimpleItemExperienceStorageImpl.java:54 | adds up to the request and the accept limit when the slot is empty or holds the same variant; snapshots only when something moves |
| ItemContext.ContainerItemContext.OnClose | src/main/java/de/dafuqs/thefabricexperience/impl/storage/SimpleItemExperienceStorageImpl.java:53-58 | closing a transaction applies the snapshot protocol to the slot |
| StoredExperience.GetStoredExperienceUnchecked | src/main/java/de/dafuqs/thefabricexperience/api/storage/base/SimpleExperienceStorageItem.java:90-99 | a unit without the tag reads 0; any non-zero reading is the value its tag holds |
| StoredExperience.WithStoredExperience | src/main/java/de/dafuqs/thefabricexperience/api/storage/base/SimpleExperienceStorageItem.java:104-111 | setting keeps the item, a read after a set returns the value set, and the key is absent exactly when 0 was set |
| StoredExperience.SetStoredExperienceUnchecked | src/main/java/de/dafuqs/thefabricexperience/api/storage/base/SimpleExperienceStorageItem.java:104-111 | rewrites the stack's tag in place to the set variant and leaves its count alone |
| StoredExperience.SetDeterminesUnit | src/main/java/de/dafuqs/thefabricexperience/api/storage/base/SimpleExperienceStorageItem.java:105-107 | two units of one item are equal after a set iff the same amount was set; a zeroed unit equals a fresh one |
| StoredExperience.SetOfGet | src/main/java/de/dafuqs/thefabricexperience/api/storage/base/SimpleExperienceStorageItem.java:90-111 | writing back what was read changes a unit iff its tag held an explicit 0 |
| StoredExperience.TryUseExperience | src/main/java/de/dafuqs/thefabricexperience/api/storage/base/SimpleExperienceStorageItem.java:72-85 | requires a count of exactly 1; succeeds iff enough is stored, and debits the amount only then |
| SimpleStorage.SimpleExperienceStorage.constructor | src/main/java/de/dafuqs/thefabricexperience/api/storage/base/SimpleExperienceStorage.java:18-26 | rejects negative capacity and limits; starts empty with no snapshots |
| SimpleStorage.SimpleExperienceStorage.SupportsInsertion | src/main/java/de/dafuqs/thefabricexperience/api/storage/base/SimpleExperienceStorage.java:39-41 | false only when no `insert` can move anything; when true, a tank with room takes a unit request in full |
| SimpleStorage.SimpleExperienceStorage.SupportsExtraction | src/main/java/de/dafuqs/thefabricexperience/api/storage/base/SimpleExperienceStorage.java:59-61 | false only when no `extract` can move anything; when true, a non-empty tank gives up a unit request |
| SimpleStorage.SimpleExperienceStorage.GetAmount | src/main/java/de/dafuqs/thefabricexperience/api/storage/base/SimpleExperienceStorage.java:79-81 | the stored amount lies between 0 and the capacity |
| SimpleStorage.SimpleExperienceStorage.GetCapacity | src/main/java/de/dafuqs/thefabricexperience/api/storage/base/SimpleExperienceStorage.java:84-86 | the capacity is never below the amount, and a tank at its capacity takes nothing |
| SimpleStorage.SimpleExperienceStorage.InsertResult | src/main/java/de/dafuqs/thefabricexperience/api/storage/base/SimpleExperienceStorage.java:44-56 | within the request, `maxInsert` and the free room; 0 iff the request is 0, insertion is unsupported or the tank is full |
| SimpleStorage.SimpleExperienceStorage.ExtractResult | src/main/java/de/dafuqs/thefabricexperience/api/storage/base/SimpleExperienceStorage.java:64-76 | within the request, `maxExtract` and the amount; 0 iff the request is 0, extraction is unsupported or the tank is empty |
| SimpleStorage.SimpleExperienceStorage.Insert | src/main/java/de/dafuqs/thefabricexperience/api/storage/base/SimpleExperienceStorage.java:44-56 | returns the insert result, adds exactly that, keeps `0 <= amount <= capacity`, and snapshots only when something moves |
| SimpleStorage.SimpleExperienceStorage.Extract | src/main/java/de/dafuqs/thefabricexperience/api/storage/base/SimpleExperienceStorage.java:64-76 | returns the extract result, removes exactly that, keeps the bounds, and snapshots only when something moves |
| SimpleStorage.SimpleExperienceStorage.UpdateSnapshots | src/main/java/de/dafuqs/thefabricexperience/api/storage/base/SimpleExperienceStorage.java:28-31 | the snapshot is the amount |
| SimpleStorage.SimpleExperienceStorage.OnClose | src/main/java/de/dafuqs/thefabricexperience/api/storage/base/SimpleExperienceStorage.java:33-36 | an abort writes the snapshot back into the amount, within the bounds |
| SimpleStorage.InsertThenExtractRoundTrip | src/main/java/de/dafuqs/thefabricexperience/api/storage/base/SimpleExperienceStorage.java:44-76 | an insert of `n` that the rates and room allow in full can be extracted in full again |
| SidedContainer.Direction.Id | src/main/java/de/dafuqs/thefabricexperience/api/storage/base/SimpleSidedExperienceContainer.java:45 | direction ids lie in 0..5 |
| SidedContainer.DirectionById | src/main/java/de/dafuqs/thefabricexperience/api/storage/base/SimpleSidedExperienceContainer.java:22 | `Direction.byId` inverts `getId` |
| SidedContainer.SideIndex | src/main/java/de/dafuqs/thefabricexperience/api/storage/base/SimpleSidedExperienceContainer.java:45 | the lookup index lies in 0..6 and is 6 exactly for the null side |
| SidedContainer.SideIndexRoundTrip | src/main/java/de/dafuqs/thefabricexperience/api/storage/base/SimpleSidedExperienceContainer.java:20-46 | the facade built at index `i` serves the side that looks up index `i`, both ways |
| SidedContainer.SimpleSidedExperienceContainer.constructor | src/main/java/de/dafuqs/thefabricexperience/api/storage/base/SimpleSidedExperienceContainer.java:20-24 | the loop builds seven facades on this container, facade `i` for side `i` and the null side last |
| SidedContainer.SimpleSidedExperienceContainer.GetSideStorage | src/main/java/de/dafuqs/thefabricexperience/api/storage/base/SimpleSidedExperienceContainer.java:44-46 | returns a facade of this container serving exactly the side asked for |
| SidedContainer.SimpleSidedExperienceContainer.UpdateSnapshots | src/main/java/de/dafuqs/thefabricexperience/api/storage/base/SimpleSidedExperienceContainer.java:48-51 | the snapshot is the shared amount |
| SidedContainer.SimpleSidedExperienceContainer.OnClose | src/main/java/de/dafuqs/thefabricexperience/api/storage/base/SimpleSidedExperienceContainer.java:53-56 | an abort writes the snapshot back into the shared amount |
| SidedContainer.FacadesAreDistinct | src/main/java/de/dafuqs/thefabricexperience/api/storage/base/SimpleSidedExperienceContainer.java:18-24 | two sides get the same facade iff they are the same side |
| SidedContainer.FacadesShareAmount | src/main/java/de/dafuqs/thefabricexperience/api/storage/base/SimpleSidedExperienceContainer.java:106-113 | every facade of a container reports the same amount and the same capacity |
| SidedContainer.SideStorage.SupportsInsertion | src/main/java/de/dafuqs/thefabricexperience/api/storage/base/SimpleSidedExperienceContainer.java:66-68 | false only when no `insert` through this side can move anything; when true, a container with room takes a unit request through it |
| SidedContainer.SideStorage.SupportsExtraction | src/main/java/de/dafuqs/thefabricexperience/api/storage/base/SimpleSidedExperienceContainer.java:86-88 | false only when no `extract` through this side can move anything; when true, a non-empty container gives up a unit request through it |
| SidedContainer.SideStorage.GetAmount | src/main/java/de/dafuqs/thefabricexperience/api/storage/base/SimpleSidedExperienceContainer.java:106-108 | the shared amount, never negative |
| SidedContainer.SideStorage.GetCapacity | src/main/java/de/dafuqs/thefabricexperience/api/storage/base/SimpleSidedExperienceContainer.java:111-113 | once the host's capacity is at or below the amount, no insert through this side moves anything |
| SidedContainer.SideStorage.InsertResult | src/main/java/de/dafuqs/thefabricexperience/api/storage/base/SimpleSidedExperienceContainer.java:71-83 | within the request, the side's rate and the room under the current capacity; 0 once the capacity is at or below the amount, and 0 iff request, rate or room is exhausted |
| SidedContainer.SideStorage.ExtractResult | src/main/java/de/dafuqs/thefabricexperience/api/storage/base/SimpleSidedExperienceContainer.java:91-103 | within the request, the side's rate and the shared amount; 0 iff request, rate or amount is exhausted |
| SidedContainer.SideStorage.Insert | src/main/java/de/dafuqs/thefabricexperience/api/storage/base/SimpleSidedExperienceContainer.java:71-83 | returns the insert result and adds exactly that to the shared amount; only the amount and the journal may change |
| SidedContainer.SideStorage.Extract | src/main/java/de/dafuqs/thefabricexperience/api/storage/base/SimpleSidedExperienceContainer.java:91-103 | returns the extract result and removes exactly that from the shared amount, which stays non-negative; only the amount and the journal may change |
| ItemStorages.TrySetExperience | src/main/java/de/dafuqs/thefabricexperience/impl/storage/SimpleItemExperienceStorageImpl.java:47-61 | succeeds iff the inventory lets all `count` units out and back in; on success every unit carries the new amount and the count is kept; on failure the slot and its journal are exactly as before |
| ItemStorages.StackAmount | src/main/java/de/dafuqs/thefabricexperience/impl/storage/SimpleItemExperienceStorageImpl.java:108-110 | count × per-unit, which divides back to the per-unit amount |
| ItemStorages.StackCapacity | src/main/java/de/dafuqs/thefabricexperience/impl/storage/SimpleItemExperienceStorageImpl.java:113-115 | count × per-unit capacity: it divides back to the per-unit capacity, is never below the stack amount while each unit is within capacity, and is 0 for an empty slot |
| ItemStorages.SimpleItemExperienceStorageImpl.InsertResult | src/main/java/de/dafuqs/thefabricexperience/impl/storage/SimpleItemExperienceStorageImpl.java:69-83 | a multiple of the count within the request; per unit within `maxInsert` and the capacity; positive iff rate, request, room and inventory allow; maximal |
| ItemStorages.SimpleItemExperienceStorageImpl.ExtractResult | src/main/java/de/dafuqs/thefabricexperience/impl/storage/SimpleItemExperienceStorageImpl.java:91-105 | a multiple of the count within the request; per unit within `maxExtract` and what each unit holds; positive iff rate, request, stored amount and inventory allow; maximal |
| ItemStorages.SimpleItemExperienceStorageImpl.Insert | src/main/java/de/dafuqs/thefabricexperience/impl/storage/SimpleItemExperienceStorageImpl.java:69-83 | returns the insert result; the total grows by exactly that, and every unit gains the same share or nothing changes |
| ItemStorages.SimpleItemExperienceStorageImpl.Extract | src/main/java/de/dafuqs/thefabricexperience/impl/storage/SimpleItemExperienceStorageImpl.java:91-105 | returns the extract result; the total shrinks by exactly that, and every unit loses the same share or nothing changes |
| ItemStorages.SimpleItemExperienceStorageImpl.constructor | src/main/java/de/dafuqs/thefabricexperience/impl/storage/SimpleItemExperienceStorageImpl.java:37-42 | keeps the slot and the per-unit limits |
| ItemStorages.SimpleItemExperienceStorageImpl.SupportsInsertion | src/main/java/de/dafuqs/thefabricexperience/impl/storage/SimpleItemExperienceStorageImpl.java:64-66 | false only when no `insert` can add anything; when true, units below capacity take a request of one per unit if the inventory lets the stack be replaced |
| ItemStorages.SimpleItemExperienceStorageImpl.SupportsExtraction | src/main/java/de/dafuqs/thefabricexperience/impl/storage/SimpleItemExperienceStorageImpl.java:86-88 | false only when no `extract` can remove anything; when true, units holding experience give up a request of one per unit if the inventory lets the stack be replaced |
| ItemStorages.SimpleItemExperienceStorageImpl.GetAmount | src/main/java/de/dafuqs/thefabricexperience/impl/storage/SimpleItemExperienceStorageImpl.java:108-110 | count × per-unit: it divides back to what each unit carries, and is 0 for an empty slot |
| ItemStorages.SimpleItemExperienceStorageImpl.GetCapacity | src/main/java/de/dafuqs/thefabricexperience/impl/storage/SimpleItemExperienceStorageImpl.java:113-115 | count × per-unit capacity: it divides back to the per-unit capacity, bounds the amount while units are within capacity, and units at capacity take nothing |
| ItemStorages.FixedExtractOnlyItemExperienceStorageImpl.Insert | src/main/java/de/dafuqs/thefabricexperience/impl/storage/FixedExtractOnlyItemExperienceStorageImpl.java:63-66 | insertion is always refused |
| ItemStorages.FixedExtractOnlyItemExperienceStorageImpl.ExtractResult | src/main/java/de/dafuqs/thefabricexperience/impl/storage/FixedExtractOnlyItemExperienceStorageImpl.java:74-92 | 0 when the count exceeds the request; else a multiple of the count within the request and the stored amount, positive iff stored and inventory allow, draining each unit as far as the request permits |
| ItemStorages.FixedExtractOnlyItemExperienceStorageImpl.Extract | src/main/java/de/dafuqs/thefabricexperience/impl/storage/FixedExtractOnlyItemExperienceStorageImpl.java:74-92 | returns the extract result; the total shrinks by exactly that, and every unit loses the same share or nothing changes |
| ItemStorages.FixedExtractOnlyItemExperienceStorageImpl.constructor | src/main/java/de/dafuqs/thefabricexperience/impl/storage/FixedExtractOnlyItemExperienceStorageImpl.java:34-37 | keeps the slot and the per-unit capacity |
| ItemStorages.FixedExtractOnlyItemExperienceStorageImpl.SupportsInsertion | src/main/java/de/dafuqs/thefabricexperience/impl/storage/FixedExtractOnlyItemExperienceStorageImpl.java:59-61 | insertion is never supported, matching an `insert` that always returns 0 |
| ItemStorages.FixedExtractOnlyItemExperienceStorageImpl.SupportsExtraction | src/main/java/de/dafuqs/thefabricexperience/impl/storage/FixedExtractOnlyItemExperienceStorageImpl.java:69-71 | extraction is always supported: units holding experience give some up to a request of one per unit when the inventory lets the stack be replaced |
| ItemStorages.FixedExtractOnlyItemExperienceStorageImpl.GetAmount | src/main/java/de/dafuqs/thefabricexperience/impl/storage/FixedExtractOnlyItemExperienceStorageImpl.java:95-97 | count × per-unit: it divides back to what each unit carries, and is 0 for an empty slot |
| ItemStorages.FixedExtractOnlyItemExperienceStorageImpl.GetCapacity | src/main/java/de/dafuqs/thefabricexperience/impl/storage/FixedExtractOnlyItemExperienceStorageImpl.java:100-102 | count × per-unit capacity: it divides back to the per-unit capacity and bounds the amount while units are within capacity |
| ExperienceStorages.InsertResult | src/main/java/de/dafuqs/thefabricexperience/api/storage/ExperienceStorage.java:71-88 | the interface contract of `insert` for every implementation: within the request, 0 when unsupported, never past the capacity |
| ExperienceStorages.ExtractResult | src/main/java/de/dafuqs/thefabricexperience/api/storage/ExperienceStorage.java:90-107 | the interface contract of `extract` for every implementation: within the request, 0 when unsupported, never more than stored |
| ExperienceStorages.Insert | src/main/java/de/dafuqs/thefabricexperience/api/storage/ExperienceStorage.java:81-88 | any implementation's insert returns its insert result, grows the amount by exactly that and keeps the capacity; the participant journals a snapshot at the transaction's depth exactly when something moved; a slot keeps its count and limits and every unit gains the same share; a side container keeps its rate hooks |
| ExperienceStorages.Extract | src/main/java/de/dafuqs/thefabricexperience/api/storage/ExperienceStorage.java:100-107 | any implementation's extract returns its extract result, shrinks the amount by exactly that and keeps the capacity; the participant journals a snapshot exactly when something moved; a slot keeps its count and limits and every unit loses the same share; a side container keeps its rate hooks |
| ExperienceStorages.EmptyIsInert | src/main/java/de/dafuqs/thefabricexperience/impl/storage/ExperienceImpl.java:21-51 | `EMPTY` supports nothing, moves nothing, and reports 0 amount and capacity |
| Delegating.DelegatingExperienceStorage.constructor | src/main/java/de/dafuqs/thefabricexperience/api/storage/base/DelegatingExperienceStorage.java:27-38 | wraps a fixed backing storage; a null predicate becomes always-true |
| Delegating.DelegatingExperienceStorage.FromSupplier | src/main/java/de/dafuqs/thefabricexperience/api/storage/base/DelegatingExperienceStorage.java:35-38 | wraps a supplier resolved on each call; a null predicate becomes always-true |
| Delegating.DelegatingExperienceStorage.SupportsInsertion | src/main/java/de/dafuqs/thefabricexperience/api/storage/base/DelegatingExperienceStorage.java:40-43 | never true while the predicate is false, and false only when no `insert` can move anything |
| Delegating.DelegatingExperienceStorage.SupportsExtraction | src/main/java/de/dafuqs/thefabricexperience/api/storage/base/DelegatingExperienceStorage.java:56-59 | never true while the predicate is false, and false only when no `extract` can move anything |
| Delegating.DelegatingExperienceStorage.GetAmount | src/main/java/de/dafuqs/thefabricexperience/api/storage/base/DelegatingExperienceStorage.java:72-79 | EMPTY's amount while the predicate is false; the amount of the storage the supplier resolves now otherwise |
| Delegating.DelegatingExperienceStorage.GetCapacity | src/main/java/de/dafuqs/thefabricexperience/api/storage/base/DelegatingExperienceStorage.java:81-88 | EMPTY's capacity while the predicate is false; the capacity of the storage the supplier resolves now otherwise |
| Delegating.DelegatingExperienceStorage.InsertResult | src/main/java/de/dafuqs/thefabricexperience/api/storage/base/DelegatingExperienceStorage.java:46-54 | the wrapper keeps the interface contract of `insert` in terms of its own guarded queries |
| Delegating.DelegatingExperienceStorage.ExtractResult | src/main/java/de/dafuqs/thefabricexperience/api/storage/base/DelegatingExperienceStorage.java:62-70 | the wrapper keeps the interface contract of `extract` in terms of its own guarded queries |
| Delegating.DelegatingExperienceStorage.Insert | src/main/java/de/dafuqs/thefabricexperience/api/storage/base/DelegatingExperienceStorage.java:46-54 | a negative request is an error even while invalid; the predicate's answer does not change; while invalid returns 0 and leaves the backing storage untouched; while valid returns what the backing storage moves and its whole new state is as `ExperienceStorages.Insert` gives it |
| Delegating.DelegatingExperienceStorage.Extract | src/main/java/de/dafuqs/thefabricexperience/api/storage/base/DelegatingExperienceStorage.java:62-70 | a negative request is an error even while invalid; the predicate's answer does not change; while invalid returns 0 and leaves the backing storage untouched; while valid returns what the backing storage moves and its whole new state is as `ExperienceStorages.Extract` gives it |
| Delegating.InvalidActsAsEmpty | src/main/java/de/dafuqs/thefabricexperience/api/storage/base/DelegatingExperienceStorage.java:41-88 | while the predicate is false every query answers as `EMPTY` does |
| Delegating.ValidActsAsBacking | src/main/java/de/dafuqs/thefabricexperience/api/storage/base/DelegatingExperienceStorage.java:41-88 | while the predicate holds every query answers as the currently resolved backing storage does, and an item-backed one sees a non-empty slot |
| ExperienceImpl.CreateSimpleItemStorage | src/main/java/de/dafuqs/thefabricexperience/impl/storage/SimpleItemExperienceStorageImpl.java:20-31 | rejects negative limits; wraps the storage behind the starting-item check, valid iff the slot is non-empty while it holds the starting item |
| ExperienceImpl.CreateFixedExtractOnlyItemStorage | src/main/java/de/dafuqs/thefabricexperience/impl/storage/FixedExtractOnlyItemExperienceStorageImpl.java:20-29 | rejects a negative capacity; wraps the storage behind the starting-item check |
| ExperienceImpl.CreateStorage | src/main/java/de/dafuqs/thefabricexperience/api/storage/base/SimpleExperienceStorageItem.java:30-32 | `createStorage` builds the guarded simple item storage with the same arguments |
| ExperienceImpl.ItemFallback | src/main/java/de/dafuqs/thefabricexperience/impl/storage/ExperienceImpl.java:11-19 | a storage exactly for items implementing SimpleExperienceStorageItem, built from that item's capacity, input and output; none otherwise; it requires non-negative item properties, since a negative one makes `createSimpleStorage` throw |
| Scenarios.RateLimitedInsert | src/main/java/de/dafuqs/thefabricexperience/api/storage/base/SimpleExperienceStorage.java:44-56 | capacity 100, rate 10: inserting 30 moves 10 |
| Scenarios.AbortUndoesInserts | src/main/java/de/dafuqs/thefabricexperience/api/storage/base/SimpleExperienceStorage.java:28-56 | five inserts of 5 reach 25, and an abort brings the amount back to 0 without a final commit |
| Scenarios.SidedInsert | src/main/java/de/dafuqs/thefabricexperience/api/storage/base/SimpleSidedExperienceContainer.java:44-113 | DOWN refuses with room to spare, the null side takes 10, and DOWN then reports 10 |
| Scenarios.StackInsert | src/main/java/de/dafuqs/thefabricexperience/impl/storage/SimpleItemExperienceStorageImpl.java:69-83 | 4 units at 2 each, capacity 10, rate 3: inserting 40 moves 12 and each unit holds 5 |
| Scenarios.GuardedStackInsert | src/main/java/de/dafuqs/thefabricexperience/api/storage/base/SimpleExperienceStorageItem.java:30-32 | the same insert through `createStorage` moves 12; the guard still holds, the storage reports 20, and the slot has journaled its old content at depth 0 |
| Scenarios.StackInsertRolledBack | src/main/java/de/dafuqs/thefabricexperience/impl/storage/SimpleItemExperienceStorageImpl.java:47-61 | when only 2 of 4 units can leave, the insert reports 0 and the slot and its journal are unchanged |
| Scenarios.ExtractOnlyStack | src/main/java/de/dafuqs/thefabricexperience/impl/storage/FixedExtractOnlyItemExperienceStorageImpl.java:74-92 | 4 units at 5 each: a request of 3 gets 0, a request of 10 gets 8 and leaves 3 per unit |
| Scenarios.InvalidDelegate | src/main/java/de/dafuqs/thefabricexperience/api/storage/base/DelegatingExperienceStorage.java:46-88 | with a false predicate, inserting 100 gets 0, the capacity reads 0 and the backing tank is untouched |
| Scenarios.EmptiedStack | src/main/java/de/dafuqs/thefabricexperience/impl/storage/SimpleItemExperienceStorageImpl.java:25-30 | after the slot is emptied, the guarded storage takes nothing and reports 0 |
| Scenarios.UseFromBottle | src/main/java/de/dafuqs/thefabricexperience/api/storage/base/SimpleExperienceStorageItem.java:72-85 | using 3 of 5 succeeds and leaves 2; using 3 more is refused |

## Left out

- The default `supportsInsertion`/`supportsExtraction` bodies (true) of the Java interface: every implementation in the repository overrides them, and the closed sum has no default case.
- Java `long` overflow in `capacity - amount`, `delta * count` and `count * perUnit`: integers are unbounded.
- `onFinalCommit` side effects such as `markDirty`: only whether the hook fires is modelled.
- A transaction manager: Fabric's `Transaction` and `SnapshotParticipant` are not part of this model. A transaction is its depth. Each participant's close callback is called explicitly for the transaction being closed. The rollback laws are proved over runs of mutations and nested transactions instead.
- `ContainerItemContext` beyond one slot: overflow into other slots and the host inventory's own rules are reduced to the two per-call limits `releaseLimit` and `acceptLimit`.
- The `SIDED` and `ITEM` lookup objects and the registration of the fallback: host registries. Only the fallback rule itself is modelled.
- NBT other than the `stored_xp` long. The per-stack answers of `getExperienceCapacity`, `getMaxExperienceInput` and `getMaxExperienceOutput` are per-item constants.
- The overridable `getStoredExperience`/`setStoredExperience` defaults: `TryUseExperience` uses the unchecked helpers they delegate to.
- Client-thread read-only querying: concurrency.
- Arbitrary lambdas in `DelegatingExperienceStorage`. Suppliers are a fixed storage or a mutable cell. Predicates are always-true, the starting-item check, or a host flag. A backing storage cannot itself be a delegating storage. Null arguments, which `requireNonNull` rejects, cannot be expressed. Subclasses that override the forwarding are not modelled.
- SimpleSidedExperienceContainer: the abstract `getCapacity`/`getMaxInsert`/`getMaxExtract` hooks are fields that the host sets between calls. They do not change during a call.
- The duplicated `trySetExperience` of the two item storages is one method, `ItemStorages.TrySetExperience`.
- The fluid, rendering, mixin and registration classes: not storage logic.
- ExperienceStorages.ExtractResult: "never more than stored" is stated for positive results only. A unit whose tag holds a negative amount makes `getAmount` negative, and extraction then gives 0.
- Delegating.DelegatingExperienceStorage.InsertResult: the capacity bound is stated against the wrapper's own guarded amount and capacity. A forwarded insert's change to the backing amount is stated by `Delegating.DelegatingExperienceStorage.Insert` only while the predicate held when the call began.
