# Read-only store decorator and passivation protocol

This project models two sequential pieces of a transactional in-memory cache's
persistence layer and proves properties of them in Dafny.

**The read-only store decorator** (`ReadOnlyStore`) wraps one cache store, its
delegate. It forwards reads (`load`, `containsKey`) to the delegate. It turns
every write-side call into a no-op: `store`, `fromStream`, `clear`, `remove`
(which always answers `false`), `purgeExpired`, `prepare`, `commit` and
`rollback`. The wrapped store therefore behaves as a pure loader. The delegate
is modelled as a map-backed store (`CacheStores.MapStore`). It holds a map from
key to entry (value and lifespan) and a map from transaction id to the
modification list that `prepare` staged. The decorator is a class holding that
delegate. Its mutators have no `modifies` clause, so the verifier checks that
the delegate is unchanged (`unchanged(delegate)`). `Issue` replays any
sequence of write-side calls through the decorator and proves the same.

**Passivation and activation**, as the cache's passivation functional test
observes them. With passivation on, the cache has two tiers: the in-memory
container and the store.
- Evicting a key moves its entry, with value and lifespan, to the store.
- Any access to a passivated key first activates it: the entry goes back to
  memory and leaves the store.
- No key is ever held by both tiers (mutual exclusivity).

Two layers model this:
- `Passivation`: a reference model on values. `Tiers` holds two maps. `Step`
  and `Answer` give the effect and the return value of each write (`Write`).
  The lemmas prove the protocol's properties, including that it is transparent.
  Apart from `clear`, every write has the effect and return value it would
  have on a cache held in a single map.
- `Caches.PassivatingCache`: the cache as a class. It has `memory` and `store`
  maps that its methods update in place, and a buffer of the open
  transaction's writes. Each write is proved against `Step`/`Answer`.
  `Evict` is proved against `Passivate`, and `Get` against `ValueOf` and
  `Activate`. `Begin`, `Commit` and `Rollback` are proved against the
  transaction's view, `Replay` of the buffered writes.

The test's four scenarios are replayed as methods (`PassivationFunctionalTest`).
Their assertions are checked by the verifier. As in the test class, all four
run on one shared cache. Each starts from the empty tiers that the
after-method fixture leaves, and `RunAll` chains them with that fixture in
between.

Transactions have one pending-write buffer.
- A write inside a transaction touches neither tier. It answers from the
  transaction's view: the committed tiers with the buffered writes replayed.
- `commit` replays the buffer, in order, with the non-transactional semantics.
  That includes activation, so committed writes land in memory only.
- `rollback` discards the buffer.

## Model

| member | source | states |
|---|---|---|
| `Decorators.ReadOnlyStore.constructor` | src/main/java/org/horizon/loader/decorators/ReadOnlyStore.java:18-22 | the decorator holds exactly the given delegate |
| `Decorators.ReadOnlyStore.Load` | src/main/java/org/horizon/loader/decorators/ReadOnlyStore.java:18 | `load` is not overridden: it finds an entry exactly when the delegate holds the key, and returns the delegate's entry |
| `Decorators.ReadOnlyStore.ContainsKey` | src/main/java/org/horizon/loader/decorators/ReadOnlyStore.java:18 | `containsKey` is not overridden: true exactly when the delegate holds the key |
| `Decorators.ReadOnlyStore.Store` | src/main/java/org/horizon/loader/decorators/ReadOnlyStore.java:24-27 | `store(entry)` leaves the delegate (entries and staged transactions) unchanged |
| `Decorators.ReadOnlyStore.FromStream` | src/main/java/org/horizon/loader/decorators/ReadOnlyStore.java:29-32 | `fromStream` leaves the delegate unchanged, whatever the stream holds |
| `Decorators.ReadOnlyStore.Clear` | src/main/java/org/horizon/loader/decorators/ReadOnlyStore.java:34-37 | `clear` removes nothing from the delegate |
| `Decorators.ReadOnlyStore.Remove` | src/main/java/org/horizon/loader/decorators/ReadOnlyStore.java:39-42 | `remove` always returns false and leaves the delegate unchanged, even when the delegate holds the key |
| `Decorators.ReadOnlyStore.PurgeExpired` | src/main/java/org/horizon/loader/decorators/ReadOnlyStore.java:44-47 | `purgeExpired` removes nothing from the delegate |
| `Decorators.ReadOnlyStore.Commit` | src/main/java/org/horizon/loader/decorators/ReadOnlyStore.java:49-52 | `commit` applies nothing and forgets no staged transaction |
| `Decorators.ReadOnlyStore.Rollback` | src/main/java/org/horizon/loader/decorators/ReadOnlyStore.java:54-57 | `rollback` leaves the delegate's entries and staged transactions unchanged |
| `Decorators.ReadOnlyStore.Prepare` | src/main/java/org/horizon/loader/decorators/ReadOnlyStore.java:59-62 | `prepare` stages nothing and, even with one-phase set, applies nothing |
| `Decorators.DirectCallsChangeDelegate` | src/main/java/org/horizon/loader/decorators/ReadOnlyStore.java:11-13 | the calls the decorator suppresses are real writes: issued directly, `store` or `fromStream` of a new key, `remove` of a present key, `clear` of a non-empty store, and `prepare`, `commit` or `rollback` each change the delegate |
| `Decorators.ThroughDecoratorThenDirect` | src/main/java/org/horizon/loader/decorators/ReadOnlyStore.java:11-62 | the same call issued through the decorator leaves the delegate as it was and reports no removal, and issued directly has its real effect (a `remove` of a present key then reports true) |
| `Decorators.ReadOnlyStore.Issue` | src/main/java/org/horizon/loader/decorators/ReadOnlyStore.java:24-62 | any sequence of write-side calls through the decorator leaves the delegate's state as it was; every `remove` among them returned false |
| `Passivation.StepKeepsExclusive` | src/test/java/org/horizon/loader/PassivationFunctionalTest.java:62-94 | every cache write keeps the two tiers mutually exclusive |
| `Passivation.ReplayKeepsExclusive` | src/test/java/org/horizon/loader/PassivationFunctionalTest.java:174-211 | any list of writes, such as a committed transaction, keeps the tiers mutually exclusive |
| `Passivation.PassivateMovesEntry` | src/test/java/org/horizon/loader/PassivationFunctionalTest.java:105-109 | eviction moves the entry, with the same value and lifespan, from memory to the store, and readers see the same contents |
| `Passivation.ActivateMovesEntry` | src/test/java/org/horizon/loader/PassivationFunctionalTest.java:113-117 | activation moves the entry, with its original lifespan, from the store to memory, and readers see the same contents |
| `Passivation.PassivateActivateRoundTrip` | src/test/java/org/horizon/loader/PassivationFunctionalTest.java:105-123 | evict then activate restores both tiers exactly; activate then evict does too, so put/evict/get cycles repeat |
| `Passivation.PutPlacesInMemoryOnly` | src/test/java/org/horizon/loader/PassivationFunctionalTest.java:144-145 | `put` returns the previous value wherever it was held; the new entry, with the given lifespan, is in memory only; no other key's value changes |
| `Passivation.RemoveLeavesNeither` | src/test/java/org/horizon/loader/PassivationFunctionalTest.java:141-142 | `remove` returns the previous value (also of a passivated key) and leaves the key in neither tier |
| `Passivation.ReplaceActsOnPresentKeyOnly` | src/test/java/org/horizon/loader/PassivationFunctionalTest.java:149-150 | unconditional `replace` returns the previous value and acts as a `put` without lifespan on a present key; on an absent key it changes nothing |
| `Passivation.ReplaceIfActivates` | src/test/java/org/horizon/loader/PassivationFunctionalTest.java:155-162 | conditional `replace` on a passivated key succeeds exactly when the stored value is the expected one; either way the key is activated, and on failure it keeps its old entry |
| `Passivation.PutIfAbsentEffect` | src/test/java/org/horizon/loader/PassivationFunctionalTest.java:167-171 | `putIfAbsent` returns the present value without overwriting it and activates the key; on an absent key it returns nothing and puts the entry in memory only |
| `Passivation.PutAllPlacesInMemoryOnly` | src/test/java/org/horizon/loader/PassivationFunctionalTest.java:240-244 | `putAll` leaves every given key in memory only, without lifespan, and every other key where and as it was |
| `Passivation.PutAllOneMore` | src/test/java/org/horizon/loader/PassivationFunctionalTest.java:240 | putting one more entry of the map, activation included, extends the entries put so far by exactly that key, whichever keys were put before |
| `Passivation.PutAllIsEveryPut` | src/test/java/org/horizon/loader/PassivationFunctionalTest.java:240 | with `PutAllOneMore`: putting no entry leaves the tiers as they were, and having put every entry of the map, in any order, is `putAll` |
| `Passivation.ClearForgetsMemoryOnly` | src/test/java/org/horizon/loader/PassivationFunctionalTest.java:190-199 | after `clear`, every key that was in memory is in neither tier and reads as absent, while passivated keys still read their stored values; `clear` has its one-map effect exactly when the store is empty |
| `Passivation.StepIsTransparent` | src/test/java/org/horizon/loader/PassivationFunctionalTest.java:141-171 | apart from `clear`, every write has the effect and return value it has on a cache held in one map |
| `Passivation.ReplayIsTransparent` | src/test/java/org/horizon/loader/PassivationFunctionalTest.java:174-188 | a list of writes without `clear` leaves readers seeing what a one-map cache would show |
| `Passivation.ReplayOnlyDrainsStore` | src/test/java/org/horizon/loader/PassivationFunctionalTest.java:185-188 | writes never add to the store or change a stored entry, so a commit applies its writes to memory only |
| `Caches.PassivatingCache.constructor` | src/test/java/org/horizon/loader/PassivationFunctionalTest.java:37-48 | a new cache has both tiers empty and no open transaction |
| `Caches.PassivatingCache.Evict` | src/test/java/org/horizon/loader/PassivationFunctionalTest.java:105-106 | `evict` moves a memory-resident entry to the store and removes it from memory |
| `Caches.PassivatingCache.Get` | src/test/java/org/horizon/loader/PassivationFunctionalTest.java:113-114 | `get` returns the cache's value of the key; outside a transaction it activates a passivated key |
| `Caches.PassivatingCache.Put` | src/test/java/org/horizon/loader/PassivationFunctionalTest.java:99 | `put` without lifespan returns the previous value; outside a transaction the entry has lifespan -1 in memory and the key leaves the store |
| `Caches.PassivatingCache.PutFor` | src/test/java/org/horizon/loader/PassivationFunctionalTest.java:100 | `put` with a lifespan: as above, with the given lifespan |
| `Caches.PassivatingCache.Remove` | src/test/java/org/horizon/loader/PassivationFunctionalTest.java:141-142 | `remove` returns the previous value; outside a transaction the key leaves both tiers |
| `Caches.PassivatingCache.Replace` | src/test/java/org/horizon/loader/PassivationFunctionalTest.java:149-150 | `replace(key, value)` returns the previous value and has the effect `Step` gives it |
| `Caches.PassivatingCache.ReplaceIf` | src/test/java/org/horizon/loader/PassivationFunctionalTest.java:155-162 | `replace(key, expected, value)` returns true exactly when the current value is the expected one |
| `Caches.PassivatingCache.PutIfAbsent` | src/test/java/org/horizon/loader/PassivationFunctionalTest.java:167-171 | `putIfAbsent` returns the present value, if any, and has the effect `Step` gives it |
| `Caches.PassivatingCache.PutAll` | src/test/java/org/horizon/loader/PassivationFunctionalTest.java:240 | outside a transaction, `putAll` adds every entry to memory without lifespan and takes its keys out of the store |
| `Caches.PassivatingCache.PerformPutAll` | src/test/java/org/horizon/loader/PassivationFunctionalTest.java:240-244 | putting the entries one at a time, activation included, has the effect of `putAll` |
| `Caches.PassivatingCache.Clear` | src/test/java/org/horizon/loader/PassivationFunctionalTest.java:191-199 | `clear` inside a transaction changes neither tier; outside, it empties memory and keeps the store |
| `Caches.PassivatingCache.Submit` | src/test/java/org/horizon/loader/PassivationFunctionalTest.java:177-182 | a write inside a transaction changes neither tier, and its reply comes from the transaction's view |
| `Caches.PassivatingCache.Begin` | src/test/java/org/horizon/loader/PassivationFunctionalTest.java:177 | `begin` opens a transaction and fails if one is already open |
| `Caches.PassivatingCache.Commit` | src/test/java/org/horizon/loader/PassivationFunctionalTest.java:184-188 | `commit` makes the tiers what the transaction saw; the store only loses entries; it fails if no transaction is open |
| `Caches.PassivatingCache.Rollback` | src/test/java/org/horizon/loader/PassivationFunctionalTest.java:208-211 | `rollback` leaves both tiers as they were and closes the transaction |
| `Caches.PassivatingCache.ClearStore` | src/test/java/org/horizon/loader/PassivationFunctionalTest.java:59 | `store.clear()` empties the store and keeps the tiers exclusive |
| `PassivationFunctionalTest.TestStoredEntry` | src/test/java/org/horizon/loader/PassivationFunctionalTest.java:83-87 | an entry passes exactly when it is present with the expected value and lifespan |
| `PassivationFunctionalTest.AssertInCacheNotInStore` | src/test/java/org/horizon/loader/PassivationFunctionalTest.java:62-70 | passes exactly when the key is in memory with that value and lifespan and not in the store |
| `PassivationFunctionalTest.AssertInStoreNotInCache` | src/test/java/org/horizon/loader/PassivationFunctionalTest.java:72-80 | passes exactly when the key is in the store with that value and lifespan and not in memory |
| `PassivationFunctionalTest.AssertNotInCacheAndStore` | src/test/java/org/horizon/loader/PassivationFunctionalTest.java:89-94 | passes exactly when no given key is in either tier |
| `PassivationFunctionalTest.SetUp` | src/test/java/org/horizon/loader/PassivationFunctionalTest.java:37-48 | the before-test fixture creates one new cache, with both tiers empty and no transaction open |
| `PassivationFunctionalTest.AfterMethod` | src/test/java/org/horizon/loader/PassivationFunctionalTest.java:56-60 | after the fixture the store is empty, whether a transaction is open is unchanged, and memory is empty when none is |
| `PassivationFunctionalTest.RunAll` | src/test/java/org/horizon/loader/PassivationFunctionalTest.java:37-245 | the four tests run one after another on the single shared cache, with the after-method fixture between them; every test's precondition, both tiers empty, is met, and the cache ends empty |
| `PassivationFunctionalTest.TestPassivate` | src/test/java/org/horizon/loader/PassivationFunctionalTest.java:96-124 | starting from empty tiers on the shared cache, every assertion of the scenario holds; it ends with both entries in the store only |
| `PassivationFunctionalTest.TestRemoveAndReplace` | src/test/java/org/horizon/loader/PassivationFunctionalTest.java:126-172 | starting from empty tiers on the shared cache, every assertion of the scenario holds, through its four phases below |
| `PassivationFunctionalTest.PutTwoThenEvict` | src/test/java/org/horizon/loader/PassivationFunctionalTest.java:129-139 | two puts then two evictions leave both entries, lifespans included, in the store only |
| `PassivationFunctionalTest.RemoveThenPutOverPassivated` | src/test/java/org/horizon/loader/PassivationFunctionalTest.java:141-148 | remove and put on passivated keys return the stored values |
| `PassivationFunctionalTest.ReplaceOverPassivated` | src/test/java/org/horizon/loader/PassivationFunctionalTest.java:149-159 | replace on a passivated key returns the old value; a failing conditional replace still activates the key |
| `PassivationFunctionalTest.ConditionalWritesOverPassivated` | src/test/java/org/horizon/loader/PassivationFunctionalTest.java:161-171 | a matching conditional replace succeeds; putIfAbsent keeps a passivated value and inserts an absent one |
| `PassivationFunctionalTest.TestTransactions` | src/test/java/org/horizon/loader/PassivationFunctionalTest.java:174-223 | starting from empty tiers on the shared cache, every assertion of the scenario holds, through its phases below |
| `PassivationFunctionalTest.CommitTwoPuts` | src/test/java/org/horizon/loader/PassivationFunctionalTest.java:177-188 | puts in a transaction are invisible in both tiers until commit, then are in memory only |
| `PassivationFunctionalTest.CommitClear` | src/test/java/org/horizon/loader/PassivationFunctionalTest.java:190-199 | a clear in a transaction is invisible until commit, then both keys are gone |
| `PassivationFunctionalTest.RollBackTwoPuts` | src/test/java/org/horizon/loader/PassivationFunctionalTest.java:201-211 | puts in a rolled-back transaction never reach either tier |
| `PassivationFunctionalTest.TestPutMap` | src/test/java/org/horizon/loader/PassivationFunctionalTest.java:225-245 | starting from empty tiers on the shared cache, every assertion of the scenario holds |
| `PassivationFunctionalTest.PutTwoThenEvictOne` | src/test/java/org/horizon/loader/PassivationFunctionalTest.java:227-233 | after two puts and one eviction, one key is in each tier |
| `PassivationFunctionalTest.PutMapOverBothTiers` | src/test/java/org/horizon/loader/PassivationFunctionalTest.java:235-244 | putAll over a memory-resident, a passivated and an absent key leaves all three in memory only |

## Modelling decisions

- Keys and values are strings, and a lifespan is an integer in milliseconds.
  -1 (`Immortal`) means no lifespan. Nothing expires: the test's lifespan is
  6,000,000 ms.
- The model assumes that the cache's `clear` empties the in-memory container
  and leaves passivated entries in the store. The code that would decide this
  is not part of this model, and the functional test never clears a
  passivated key: it clears memory-resident keys only (lines 190-199), and
  its fixture clears the cache and then the store (lines 58-59).
  `StepIsTransparent` therefore excludes `clear`. `ClearForgetsMemoryOnly`
  states what `clear` does under this assumption, and that the choice matters
  only when something is passivated.
- A transaction is one buffer of pending writes.
  - Writes in a transaction answer from the transaction's view and touch
    neither tier.
  - `commit` replays them in order, activation included.
  - A `get` inside a transaction answers from that view and does not activate.
- The test suspends and resumes the transaction before checking the tiers.
  In the model, those checks read the committed tiers directly.
- The delegate store's `fromStream` stores each decoded entry in stream order.
  Its `prepare` stages the list under the transaction, or with one-phase set
  applies it at once. `commit` applies and forgets what was staged; `rollback`
  forgets it.
- The test's long scenarios are split into phases. Each phase has an exact
  pre-state and post-state for both tiers (`Holds`). A phase starts where the
  test's previous checkpoint left off.

## Left out

- `MVCCEntry` (copy-for-update and write-skew detection): the source has only
  the interface. There is no copy or compare implementation to model, and
  write skew needs concurrent transactions.
- `LifecycleCallbacks`: it registers serialization externalizers whose ids
  live in `ExternalizerIds`. `ExternalizerIds` and the externalizers are not
  part of this model, and serialization has no behaviour to verify here.
- `AbstractDelegatingStore`, `DummyInMemoryCacheStore` and the
  activation/passivation interceptors are not part of this model. The delegate
  is a map-backed stand-in, and the cache's behaviour comes from what the
  functional test observes.
- `Decorators.ReadOnlyStore.FromStream`: the stream is an already-decoded
  entry list. Stream decoding and its I/O errors are not modelled.
- The delegate store's `purgeExpired` and all expiry: there is no clock.
  Lifespans are carried as plain integers.
- Store I/O failures (`CacheLoaderException`) on load, store or remove are not
  modelled; every store call succeeds.
- JTA `suspend`/`resume`, the cache manager's set-up and tear-down, the
  configuration objects and `TestingUtil`.
- Threads, locking, and concurrent eviction or activation. The model is
  sequential, with at most one open transaction.
- Nesting a read-only decorator inside another decorator: a decorator that is
  itself a store would need a common store interface, and the model has one
  concrete delegate class.
- `Caches.PassivatingCache.PutFor`: the test passes a lifespan with a
  `TimeUnit` (milliseconds). The model drops the unit and takes the lifespan
  in milliseconds, so no unit conversion is modelled.
- The test's two-argument assertion helpers: they pass lifespan -1 to the
  three-argument ones. The scenarios call the three-argument helpers with
  `Immortal`.
