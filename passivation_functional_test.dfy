/**
 The passivation functional tests replayed against the cache model: each
 scenario is a method whose assertions the verifier checks, and the
 assertion helpers are checks that say exactly what they test.
 */
module PassivationFunctionalTest {
  import opened Entries
  import opened Caches

  /** A lifespan so long that nothing expires during a test. */
  const Lifespan: int := 6000000

  /** An entry read from a tier is present with the expected value and lifespan. */
  function TestStoredEntry(entry: Option<Entry>, expectedValue: Value, expectedLifespan: int): (ok: bool)
    ensures ok <==> entry == Some(Entry(expectedValue, expectedLifespan))
  {
    entry.Some? && entry.value.value == expectedValue && entry.value.lifespan == expectedLifespan
  }

  /** The key is in memory with this value and lifespan, and not in the store. */
  method AssertInCacheNotInStore(c: PassivatingCache, key: Key, value: Value, lifespan: int) returns (ok: bool)
    ensures ok <==> key in c.memory && c.memory[key] == Entry(value, lifespan) && key !in c.store
  {
    ok := TestStoredEntry(Find(c.memory, key), value, lifespan) && key !in c.store;
  }

  /** The key is in the store with this value and lifespan, and not in memory. */
  method AssertInStoreNotInCache(c: PassivatingCache, key: Key, value: Value, lifespan: int) returns (ok: bool)
    ensures ok <==> key in c.store && c.store[key] == Entry(value, lifespan) && key !in c.memory
  {
    ok := TestStoredEntry(Find(c.store, key), value, lifespan) && key !in c.memory;
  }

  /** None of the keys is in either tier; checking stops at the first that is. */
  method AssertNotInCacheAndStore(c: PassivatingCache, keys: seq<Key>) returns (ok: bool)
    ensures ok <==> forall i :: 0 <= i < |keys| ==> keys[i] !in c.memory && keys[i] !in c.store
  {
    ok := true;
    var i := 0;
    while i < |keys| && ok
      invariant 0 <= i <= |keys|
      invariant ok <==> forall j :: 0 <= j < i ==> keys[j] !in c.memory && keys[j] !in c.store
    {
      ok := keys[i] !in c.memory && keys[i] !in c.store;
      i := i + 1;
    }
  }

  /** The fixture run after every test: clear the cache, then its store. */
  method AfterMethod(c: PassivatingCache)
    requires c.Valid()
    modifies c
    ensures c.Valid()
    ensures c.txOpen == old(c.txOpen)
    ensures c.store == map[]
    ensures !c.txOpen ==> c.memory == map[]
  {
    c.Clear();
    c.ClearStore();
  }

  /** Both tiers, with no transaction open, are exactly as given. */
  ghost predicate Holds(c: PassivatingCache, memory: map<Key, Entry>, store: map<Key, Entry>)
    reads c
  {
    c.Valid() && !c.txOpen && c.memory == memory && c.store == store
  }

  /** The fixture run once before all tests: one cache, shared by every test. */
  method SetUp() returns (c: PassivatingCache)
    ensures fresh(c)
    ensures Holds(c, map[], map[])
  {
    c := new PassivatingCache();
  }

  /** Put, evict, activate by reading, evict again. */
  method TestPassivate(c: PassivatingCache)
    requires Holds(c, map[], map[])
    modifies c
    ensures Holds(c, map[], map["k1" := Entry("v1", Immortal), "k2" := Entry("v2", Lifespan)])
  {
    var ok := AssertNotInCacheAndStore(c, ["k1", "k2"]);
    assert ok;

    var prior := c.Put("k1", "v1");
    prior := c.PutFor("k2", "v2", Lifespan);

    ok := AssertInCacheNotInStore(c, "k1", "v1", Immortal);
    assert ok;
    ok := AssertInCacheNotInStore(c, "k2", "v2", Lifespan);
    assert ok;

    c.Evict("k1");
    c.Evict("k2");

    ok := AssertInStoreNotInCache(c, "k1", "v1", Immortal);
    assert ok;
    ok := AssertInStoreNotInCache(c, "k2", "v2", Lifespan);
    assert ok;

    var v := c.Get("k1");
    assert v == Some("v1");
    v := c.Get("k2");
    assert v == Some("v2");

    ok := AssertInCacheNotInStore(c, "k1", "v1", Immortal);
    assert ok;
    ok := AssertInCacheNotInStore(c, "k2", "v2", Lifespan);
    assert ok;

    c.Evict("k1");
    c.Evict("k2");

    ok := AssertInStoreNotInCache(c, "k1", "v1", Immortal);
    assert ok;
    ok := AssertInStoreNotInCache(c, "k2", "v2", Lifespan);
    assert ok;
  }

  /** Remove, put, replace and putIfAbsent on passivated keys. */
  method TestRemoveAndReplace(c: PassivatingCache)
    requires Holds(c, map[], map[])
    modifies c
    ensures Holds(c, map["k1" := Entry("v1-if-absent", Immortal), "k2" := Entry("v2-REPLACED-AGAIN", Immortal)], map[])
  {
    var ok := AssertNotInCacheAndStore(c, ["k1", "k2"]);
    assert ok;
    PutTwoThenEvict(c);
    RemoveThenPutOverPassivated(c);
    ReplaceOverPassivated(c);
    ConditionalWritesOverPassivated(c);
  }

  /** Puts k1 without and k2 with a lifespan, then evicts both. */
  method PutTwoThenEvict(c: PassivatingCache)
    requires Holds(c, map[], map[])
    modifies c
    ensures Holds(c, map[], map["k1" := Entry("v1", Immortal), "k2" := Entry("v2", Lifespan)])
  {
    var prior := c.Put("k1", "v1");
    prior := c.PutFor("k2", "v2", Lifespan);

    var ok := AssertInCacheNotInStore(c, "k1", "v1", Immortal);
    assert ok;
    ok := AssertInCacheNotInStore(c, "k2", "v2", Lifespan);
    assert ok;

    c.Evict("k1");
    c.Evict("k2");

    ok := AssertInStoreNotInCache(c, "k1", "v1", Immortal);
    assert ok;
    ok := AssertInStoreNotInCache(c, "k2", "v2", Lifespan);
    assert ok;
  }

  method RemoveThenPutOverPassivated(c: PassivatingCache)
    requires Holds(c, map[], map["k1" := Entry("v1", Immortal), "k2" := Entry("v2", Lifespan)])
    modifies c
    ensures Holds(c, map[], map["k2" := Entry("v2-NEW", Immortal)])
  {
    var prior := c.Remove("k1");
    assert prior == Some("v1");
    var ok := AssertNotInCacheAndStore(c, ["k1"]);
    assert ok;

    prior := c.Put("k2", "v2-NEW");
    assert prior == Some("v2");
    ok := AssertInCacheNotInStore(c, "k2", "v2-NEW", Immortal);
    assert ok;

    c.Evict("k2");
    ok := AssertInStoreNotInCache(c, "k2", "v2-NEW", Immortal);
    assert ok;
  }

  method ReplaceOverPassivated(c: PassivatingCache)
    requires Holds(c, map[], map["k2" := Entry("v2-NEW", Immortal)])
    modifies c
    ensures Holds(c, map[], map["k2" := Entry("v2-REPLACED", Immortal)])
  {
    var prior := c.Replace("k2", "v2-REPLACED");
    assert prior == Some("v2-NEW");
    var ok := AssertInCacheNotInStore(c, "k2", "v2-REPLACED", Immortal);
    assert ok;

    c.Evict("k2");
    ok := AssertInStoreNotInCache(c, "k2", "v2-REPLACED", Immortal);
    assert ok;

    var replaced := c.ReplaceIf("k2", "some-rubbish", "v2-SHOULDNT-STORE");
    assert !replaced;
    ok := AssertInCacheNotInStore(c, "k2", "v2-REPLACED", Immortal);
    assert ok;

    c.Evict("k2");
    ok := AssertInStoreNotInCache(c, "k2", "v2-REPLACED", Immortal);
    assert ok;
  }

  method ConditionalWritesOverPassivated(c: PassivatingCache)
    requires Holds(c, map[], map["k2" := Entry("v2-REPLACED", Immortal)])
    modifies c
    ensures Holds(c, map["k1" := Entry("v1-if-absent", Immortal), "k2" := Entry("v2-REPLACED-AGAIN", Immortal)], map[])
  {
    var replaced := c.ReplaceIf("k2", "v2-REPLACED", "v2-REPLACED-AGAIN");
    assert replaced;
    var ok := AssertInCacheNotInStore(c, "k2", "v2-REPLACED-AGAIN", Immortal);
    assert ok;

    c.Evict("k2");
    ok := AssertInStoreNotInCache(c, "k2", "v2-REPLACED-AGAIN", Immortal);
    assert ok;

    var prior := c.PutIfAbsent("k2", "should-not-appear");
    assert prior == Some("v2-REPLACED-AGAIN");
    ok := AssertInCacheNotInStore(c, "k2", "v2-REPLACED-AGAIN", Immortal);
    assert ok;

    prior := c.PutIfAbsent("k1", "v1-if-absent");
    assert prior == None;
    ok := AssertInCacheNotInStore(c, "k1", "v1-if-absent", Immortal);
    assert ok;
  }

  /** Writes and clear inside transactions: invisible until commit, gone on rollback. */
  method TestTransactions(c: PassivatingCache)
    requires Holds(c, map[], map[])
    modifies c
    ensures Holds(c, map[], map["k1" := Entry("v1", Immortal), "k2" := Entry("v2", Lifespan)])
  {
    var ok := AssertNotInCacheAndStore(c, ["k1", "k2"]);
    assert ok;
    CommitTwoPuts(c);
    CommitClear(c);
    RollBackTwoPuts(c);
    PutTwoThenEvict(c);
  }

  method CommitTwoPuts(c: PassivatingCache)
    requires Holds(c, map[], map[])
    modifies c
    ensures Holds(c, map["k1" := Entry("v1", Immortal), "k2" := Entry("v2", Lifespan)], map[])
  {
    var began := c.Begin();
    assert began;
    var prior := c.Put("k1", "v1");
    prior := c.PutFor("k2", "v2", Lifespan);

    var ok := AssertNotInCacheAndStore(c, ["k1", "k2"]);
    assert ok;

    var committed := c.Commit();
    assert committed;

    ok := AssertInCacheNotInStore(c, "k1", "v1", Immortal);
    assert ok;
    ok := AssertInCacheNotInStore(c, "k2", "v2", Lifespan);
    assert ok;
  }

  method CommitClear(c: PassivatingCache)
    requires Holds(c, map["k1" := Entry("v1", Immortal), "k2" := Entry("v2", Lifespan)], map[])
    modifies c
    ensures Holds(c, map[], map[])
  {
    var began := c.Begin();
    assert began;
    c.Clear();

    var ok := AssertInCacheNotInStore(c, "k1", "v1", Immortal);
    assert ok;
    ok := AssertInCacheNotInStore(c, "k2", "v2", Lifespan);
    assert ok;
    var committed := c.Commit();
    assert committed;

    ok := AssertNotInCacheAndStore(c, ["k1", "k2"]);
    assert ok;
  }

  method RollBackTwoPuts(c: PassivatingCache)
    requires Holds(c, map[], map[])
    modifies c
    ensures Holds(c, map[], map[])
  {
    var began := c.Begin();
    assert began;
    var prior := c.Put("k1", "v1");
    prior := c.PutFor("k2", "v2", Lifespan);

    var ok := AssertNotInCacheAndStore(c, ["k1", "k2"]);
    assert ok;

    var rolledBack := c.Rollback();
    assert rolledBack;

    ok := AssertNotInCacheAndStore(c, ["k1", "k2"]);
    assert ok;
  }

  /** putAll over a memory-resident, a passivated and an absent key. */
  method TestPutMap(c: PassivatingCache)
    requires Holds(c, map[], map[])
    modifies c
    ensures Holds(c, map["k1" := Entry("v1-NEW", Immortal), "k2" := Entry("v2-NEW", Immortal), "k3" := Entry("v3-NEW", Immortal)], map[])
  {
    var ok := AssertNotInCacheAndStore(c, ["k1", "k2", "k3"]);
    assert ok;
    PutTwoThenEvictOne(c);
    PutMapOverBothTiers(c);
  }

  method PutTwoThenEvictOne(c: PassivatingCache)
    requires Holds(c, map[], map[])
    modifies c
    ensures Holds(c, map["k1" := Entry("v1", Immortal)], map["k2" := Entry("v2", Immortal)])
  {
    var prior := c.Put("k1", "v1");
    prior := c.Put("k2", "v2");

    c.Evict("k2");

    var ok := AssertInCacheNotInStore(c, "k1", "v1", Immortal);
    assert ok;
    ok := AssertInStoreNotInCache(c, "k2", "v2", Immortal);
    assert ok;
  }

  method PutMapOverBothTiers(c: PassivatingCache)
    requires Holds(c, map["k1" := Entry("v1", Immortal)], map["k2" := Entry("v2", Immortal)])
    modifies c
    ensures Holds(c, map["k1" := Entry("v1-NEW", Immortal), "k2" := Entry("v2-NEW", Immortal), "k3" := Entry("v3-NEW", Immortal)], map[])
  {
    var m := map["k1" := "v1-NEW", "k2" := "v2-NEW", "k3" := "v3-NEW"];

    c.PutAll(m);

    var ok := AssertInCacheNotInStore(c, "k1", "v1-NEW", Immortal);
    assert ok;
    ok := AssertInCacheNotInStore(c, "k2", "v2-NEW", Immortal);
    assert ok;
    ok := AssertInCacheNotInStore(c, "k3", "v3-NEW", Immortal);
    assert ok;
  }

  /** The whole test class on its one shared cache: each test starts from the
      state the after-method fixture leaves, whichever test ran before it. */
  method RunAll() returns (c: PassivatingCache)
    ensures fresh(c)
    ensures Holds(c, map[], map[])
  {
    c := SetUp();
    TestPassivate(c);
    AfterMethod(c);
    TestRemoveAndReplace(c);
    AfterMethod(c);
    TestTransactions(c);
    AfterMethod(c);
    TestPutMap(c);
    AfterMethod(c);
  }
}
