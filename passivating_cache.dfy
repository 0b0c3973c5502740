/**
 A cache with passivation enabled, as its functional tests observe it: an
 in-memory container and a store, updated in place, and at most one open
 transaction whose writes are buffered until it ends.
 */
module Caches {
  import opened Entries
  import opened Passivation

  class PassivatingCache {
    /** The in-memory container. */
    var memory: map<Key, Entry>
    /** The cache store that evicted entries are passivated to. */
    var store: map<Key, Entry>
    /** Whether a transaction is open on the calling thread. */
    var txOpen: bool
    /** The writes of the open transaction, in the order they were issued. */
    var pending: seq<Write>

    /** Both tiers as they are now. */
    function Current(): (r: Tiers)
      reads this
    {
      Tiers(memory, store)
    }

    /** The cache as seen from inside the open transaction (or outside, when none is open). */
    function View(): (r: Tiers)
      reads this
    {
      Replay(Current(), pending)
    }

    ghost predicate Valid()
      reads this
    {
      Exclusive(Current()) && (!txOpen ==> pending == [])
    }

    constructor()
      ensures Valid()
      ensures memory == map[] && store == map[] && !txOpen
    {
      memory := map[];
      store := map[];
      txOpen := false;
      pending := [];
    }

    /** Activation of one key: load it from the store into memory, then remove it from the store. */
    method ActivateKey(key: Key)
      requires Exclusive(Current())
      modifies this`memory, this`store
      ensures Exclusive(Current())
      ensures Current() == Activate(old(Current()), key)
    {
      if key in store {
        memory := memory[key := store[key]];
        store := store - {key};
      }
    }

    /** The value of `key` after activating it: the cache's answer to a read. */
    method ActivateAndRead(key: Key) returns (v: Option<Value>)
      requires Exclusive(Current())
      modifies this`memory, this`store
      ensures Exclusive(Current())
      ensures Current() == Activate(old(Current()), key)
      ensures v == ValueOf(old(Current()), key)
      ensures v.Some? <==> key in memory
    {
      ActivateKey(key);
      v := if key in memory then Some(memory[key].value) else None;
    }

    /** Explicit eviction: passivates the entry to the store and removes it from memory. */
    method Evict(key: Key)
      requires Valid()
      modifies this`memory, this`store
      ensures Valid()
      ensures Current() == Passivate(old(Current()), key)
      ensures old(key in memory) ==> memory == old(memory) - {key} && store == old(store)[key := old(memory[key])]
    {
      if key in memory {
        store := store[key := memory[key]];
        memory := memory - {key};
      }
    }

    /** A read. Outside a transaction it activates a passivated key; inside one
        it answers from the transaction's view and leaves both tiers alone. */
    method Get(key: Key) returns (v: Option<Value>)
      requires Valid()
      modifies this`memory, this`store
      ensures Valid()
      ensures v == ValueOf(old(View()), key)
      ensures Current() == if txOpen then old(Current()) else Activate(old(Current()), key)
      ensures !txOpen && old(key in store) ==> memory == old(memory)[key := old(store[key])] && store == old(store) - {key}
    {
      if txOpen {
        v := ValueOf(View(), key);
      } else {
        v := ActivateAndRead(key);
      }
    }

    /** Carries out one write on the tiers at once: activation of the key
        concerned, then the change to the in-memory container. */
    method Perform(w: Write) returns (reply: Reply)
      requires Exclusive(Current())
      modifies this`memory, this`store
      ensures Exclusive(Current())
      ensures Current() == Step(old(Current()), w)
      ensures reply == Answer(old(Current()), w)
    {
      match w {
        case Put(k, v, l) =>
          var prior := PerformPut(k, v, l);
          reply := Prior(prior);
        case Remove(k) =>
          var prior := ActivateAndRead(k);
          memory := memory - {k};
          reply := Prior(prior);
        case Replace(k, v) =>
          var prior := ActivateAndRead(k);
          if prior.Some? {
            memory := memory[k := Entry(v, Immortal)];
          }
          reply := Prior(prior);
        case ReplaceIf(k, e, v) =>
          var prior := ActivateAndRead(k);
          var ok := prior == Some(e);
          if ok {
            memory := memory[k := Entry(v, Immortal)];
          }
          reply := Applied(ok);
        case PutIfAbsent(k, v) =>
          var prior := ActivateAndRead(k);
          if prior.None? {
            memory := memory[k := Entry(v, Immortal)];
          }
          reply := Prior(prior);
        case PutAll(m) =>
          PerformPutAll(m);
          reply := Done;
        case Clear =>
          memory := map[];
          reply := Done;
      }
    }

    /** `put` carried out at once: activate the key, then write the new entry to memory. */
    method PerformPut(k: Key, v: Value, l: int) returns (prior: Option<Value>)
      requires Exclusive(Current())
      modifies this`memory, this`store
      ensures Exclusive(Current())
      ensures Current() == Step(old(Current()), Write.Put(k, v, l))
      ensures prior == ValueOf(old(Current()), k)
    {
      prior := ActivateAndRead(k);
      memory := memory[k := Entry(v, l)];
    }

    /** `putAll` puts each given entry in turn, activating its key first. */
    method PerformPutAll(values: map<Key, Value>)
      requires Exclusive(Current())
      modifies this`memory, this`store
      ensures Exclusive(Current())
      ensures Current() == Step(old(Current()), Write.PutAll(values))
    {
      ghost var start := Current();
      PutAllIsEveryPut(start, values);
      var todo := values.Keys;
      ghost var done: set<Key> := {};
      while todo != {}
        invariant done !! todo && done + todo == values.Keys
        invariant Exclusive(Current())
        invariant Current() == PutAllPartly(start, values, done)
        decreases todo
      {
        var k :| k in todo;
        var _ := PerformPut(k, values[k], Immortal);
        PutAllOneMore(start, values, done, k);
        todo := todo - {k};
        done := done + {k};
      }
    }

    /** Issues one write: inside a transaction it is only buffered, and its
        reply is read from the transaction's view; outside, it is performed. */
    method Submit(w: Write) returns (reply: Reply)
      requires Valid()
      modifies this`memory, this`store, this`pending
      ensures Valid()
      ensures reply == Answer(old(View()), w)
      ensures View() == Step(old(View()), w)
      ensures Current() == if txOpen then old(Current()) else Step(old(Current()), w)
    {
      if txOpen {
        reply := Answer(View(), w);
        pending := pending + [w];
        assert pending[..|pending| - 1] == old(pending);
      } else {
        reply := Perform(w);
      }
    }

    /** `put(key, value)`: no lifespan. */
    method Put(key: Key, value: Value) returns (prior: Option<Value>)
      requires Valid()
      modifies this`memory, this`store, this`pending
      ensures Valid()
      ensures prior == ValueOf(old(View()), key)
      ensures View() == Step(old(View()), Write.Put(key, value, Immortal))
      ensures Current() == if txOpen then old(Current()) else Step(old(Current()), Write.Put(key, value, Immortal))
      ensures !txOpen ==> memory == old(memory)[key := Entry(value, Immortal)] && store == old(store) - {key}
    {
      prior := PutFor(key, value, Immortal);
    }

    /** `put(key, value, lifespan, unit)`, with the lifespan in milliseconds. */
    method PutFor(key: Key, value: Value, lifespan: int) returns (prior: Option<Value>)
      requires Valid()
      modifies this`memory, this`store, this`pending
      ensures Valid()
      ensures prior == ValueOf(old(View()), key)
      ensures View() == Step(old(View()), Write.Put(key, value, lifespan))
      ensures Current() == if txOpen then old(Current()) else Step(old(Current()), Write.Put(key, value, lifespan))
      ensures !txOpen ==> memory == old(memory)[key := Entry(value, lifespan)] && store == old(store) - {key}
    {
      var reply := Submit(Write.Put(key, value, lifespan));
      prior := reply.previous;
    }

    /** `remove(key)`: returns the previous value, wherever it was held. */
    method Remove(key: Key) returns (prior: Option<Value>)
      requires Valid()
      modifies this`memory, this`store, this`pending
      ensures Valid()
      ensures prior == ValueOf(old(View()), key)
      ensures View() == Step(old(View()), Write.Remove(key))
      ensures Current() == if txOpen then old(Current()) else Step(old(Current()), Write.Remove(key))
      ensures !txOpen ==> memory == old(memory) - {key} && store == old(store) - {key}
    {
      var reply := Submit(Write.Remove(key));
      prior := reply.previous;
    }

    /** `replace(key, value)`: only replaces a present entry. */
    method Replace(key: Key, value: Value) returns (prior: Option<Value>)
      requires Valid()
      modifies this`memory, this`store, this`pending
      ensures Valid()
      ensures prior == ValueOf(old(View()), key)
      ensures View() == Step(old(View()), Write.Replace(key, value))
      ensures Current() == if txOpen then old(Current()) else Step(old(Current()), Write.Replace(key, value))
    {
      var reply := Submit(Write.Replace(key, value));
      prior := reply.previous;
    }

    /** `replace(key, expected, value)`: replaces only when the current value is `expected`. */
    method ReplaceIf(key: Key, expected: Value, value: Value) returns (replaced: bool)
      requires Valid()
      modifies this`memory, this`store, this`pending
      ensures Valid()
      ensures replaced <==> ValueOf(old(View()), key) == Some(expected)
      ensures View() == Step(old(View()), Write.ReplaceIf(key, expected, value))
      ensures Current() == if txOpen then old(Current()) else Step(old(Current()), Write.ReplaceIf(key, expected, value))
    {
      var reply := Submit(Write.ReplaceIf(key, expected, value));
      replaced := reply.ok;
    }

    /** `putIfAbsent(key, value)`: returns the present value, or stores `value` when there is none. */
    method PutIfAbsent(key: Key, value: Value) returns (prior: Option<Value>)
      requires Valid()
      modifies this`memory, this`store, this`pending
      ensures Valid()
      ensures prior == ValueOf(old(View()), key)
      ensures View() == Step(old(View()), Write.PutIfAbsent(key, value))
      ensures Current() == if txOpen then old(Current()) else Step(old(Current()), Write.PutIfAbsent(key, value))
    {
      var reply := Submit(Write.PutIfAbsent(key, value));
      prior := reply.previous;
    }

    /** `putAll(values)`. */
    method PutAll(values: map<Key, Value>)
      requires Valid()
      modifies this`memory, this`store, this`pending
      ensures Valid()
      ensures View() == Step(old(View()), Write.PutAll(values))
      ensures Current() == if txOpen then old(Current()) else Step(old(Current()), Write.PutAll(values))
      ensures !txOpen ==> memory == old(memory) + Immortals(values) && store == old(store) - values.Keys
    {
      var _ := Submit(Write.PutAll(values));
    }

    /** `clear()`: empties the in-memory container; passivated entries stay in the store. */
    method Clear()
      requires Valid()
      modifies this`memory, this`store, this`pending
      ensures Valid()
      ensures View() == Step(old(View()), Write.Clear)
      ensures Current() == if txOpen then old(Current()) else Tiers(map[], old(store))
    {
      var _ := Submit(Write.Clear);
    }

    /** `store.clear()` issued on the cache's store directly. */
    method ClearStore()
      requires Valid()
      modifies this`store
      ensures Valid()
      ensures store == map[]
    {
      store := map[];
    }

    /** Opens a transaction; fails when one is already open. */
    method Begin() returns (ok: bool)
      requires Valid()
      modifies this`txOpen, this`pending
      ensures Valid()
      ensures ok <==> !old(txOpen)
      ensures txOpen
      ensures View() == old(View())
    {
      ok := !txOpen;
      if ok {
        txOpen := true;
        pending := [];
      }
    }

    /** Commits the open transaction: its writes take effect, in order, on the
        tiers. Fails when no transaction is open. */
    method Commit() returns (ok: bool)
      requires Valid()
      modifies this
      ensures Valid()
      ensures ok <==> old(txOpen)
      ensures !txOpen
      ensures Current() == old(View())
      ensures forall k :: k in store ==> k in old(store) && store[k] == old(store)[k]
    {
      ReplayOnlyDrainsStore(Current(), pending);
      ok := txOpen;
      var i := 0;
      while i < |pending|
        invariant 0 <= i <= |pending|
        invariant pending == old(pending) && txOpen == old(txOpen)
        invariant Exclusive(Current())
        invariant Current() == Replay(old(Current()), pending[..i])
      {
        assert pending[..i + 1][..i] == pending[..i];
        var _ := Perform(pending[i]);
        i := i + 1;
      }
      assert pending[..i] == pending;
      txOpen := false;
      pending := [];
    }

    /** Rolls back the open transaction: its writes are discarded. Fails when
        no transaction is open. */
    method Rollback() returns (ok: bool)
      requires Valid()
      modifies this`txOpen, this`pending
      ensures Valid()
      ensures ok <==> old(txOpen)
      ensures !txOpen
      ensures Current() == old(Current())
    {
      ok := txOpen;
      txOpen := false;
      pending := [];
    }
  }
}
