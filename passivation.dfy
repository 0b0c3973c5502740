/**
 The passivation/activation protocol as a reference model on values: a cache
 with passivation enabled keeps each entry in exactly one of two tiers, the
 in-memory container or the store. Eviction moves an entry from memory to the
 store (passivation); any access to a passivated key first moves it back
 (activation). Every cache write is described by a `Write` value whose effect
 on the tiers is `Step` and whose return value is `Answer`.
 */
module Passivation {
  import opened Entries

  /** The in-memory container and the store, each a map from key to entry. */
  datatype Tiers = Tiers(memory: map<Key, Entry>, store: map<Key, Entry>)

  /** Mutual exclusivity: no key is held by both tiers. */
  predicate Exclusive(t: Tiers)
  {
    t.memory.Keys !! t.store.Keys
  }

  /** What a reader of the cache sees, whichever tier holds each entry. */
  function Contents(t: Tiers): (r: map<Key, Entry>)
  {
    t.store + t.memory
  }

  /** The value a cache read of `k` yields (memory first, then the store). */
  function ValueOf(t: Tiers, k: Key): (r: Option<Value>)
  {
    if k in t.memory then Some(t.memory[k].value)
    else if k in t.store then Some(t.store[k].value)
    else None
  }

  /** Activation: a passivated entry is loaded into memory and removed from the store. */
  function Activate(t: Tiers, k: Key): (r: Tiers)
  {
    if k in t.store then Tiers(t.memory[k := t.store[k]], t.store - {k}) else t
  }

  /** Passivation on eviction: the entry is written to the store and removed from memory. */
  function Passivate(t: Tiers, k: Key): (r: Tiers)
  {
    if k in t.memory then Tiers(t.memory - {k}, t.store[k := t.memory[k]]) else t
  }

  /** A write-side cache operation. */
  datatype Write =
    | Put(key: Key, value: Value, lifespan: int)
    | Remove(key: Key)
    | Replace(key: Key, value: Value)
    | ReplaceIf(key: Key, expected: Value, value: Value)
    | PutIfAbsent(key: Key, value: Value)
    | PutAll(values: map<Key, Value>)
    | Clear

  /** What a write returns: the previous value, whether a conditional write applied, or nothing. */
  datatype Reply = Prior(previous: Option<Value>) | Applied(ok: bool) | Done

  /** Entries without a lifespan for every key of `values`. */
  function Immortals(values: map<Key, Value>): (m: map<Key, Entry>)
    ensures m.Keys == values.Keys
    ensures forall k :: k in values ==> m[k] == Entry(values[k], Immortal)
  {
    map k | k in values :: Entry(values[k], Immortal)
  }

  /** The tiers after a write, outside any transaction. A write to one key
      activates that key first and then acts on the in-memory container. */
  function Step(t: Tiers, w: Write): (r: Tiers)
  {
    match w
    case Put(k, v, l) =>
      var a := Activate(t, k);
      Tiers(a.memory[k := Entry(v, l)], a.store)
    case Remove(k) =>
      var a := Activate(t, k);
      Tiers(a.memory - {k}, a.store)
    case Replace(k, v) =>
      var a := Activate(t, k);
      if k in a.memory then Tiers(a.memory[k := Entry(v, Immortal)], a.store) else a
    case ReplaceIf(k, e, v) =>
      var a := Activate(t, k);
      if k in a.memory && a.memory[k].value == e then Tiers(a.memory[k := Entry(v, Immortal)], a.store) else a
    case PutIfAbsent(k, v) =>
      var a := Activate(t, k);
      if k in a.memory then a else Tiers(a.memory[k := Entry(v, Immortal)], a.store)
    case PutAll(m) =>
      Tiers(t.memory + Immortals(m), t.store - m.Keys)
    case Clear =>
      Tiers(map[], t.store)
  }

  /** The value a write returns, read from the cache as it was before the write. */
  function Answer(t: Tiers, w: Write): (r: Reply)
  {
    match w
    case Put(k, _, _) => Prior(ValueOf(t, k))
    case Remove(k) => Prior(ValueOf(t, k))
    case Replace(k, _) => Prior(ValueOf(t, k))
    case ReplaceIf(k, e, _) => Applied(ValueOf(t, k) == Some(e))
    case PutIfAbsent(k, _) => Prior(ValueOf(t, k))
    case PutAll(_) => Done
    case Clear => Done
  }

  /** The tiers after a list of writes, applied first to last. */
  function Replay(t: Tiers, ws: seq<Write>): (r: Tiers)
    decreases |ws|
  {
    if ws == [] then t else Step(Replay(t, ws[..|ws| - 1]), ws[|ws| - 1])
  }

  // ---------------------------------------------------------------------
  // Reference semantics: a cache without passivation is one map.

  function MapStep(c: map<Key, Entry>, w: Write): (r: map<Key, Entry>)
  {
    match w
    case Put(k, v, l) => c[k := Entry(v, l)]
    case Remove(k) => c - {k}
    case Replace(k, v) => if k in c then c[k := Entry(v, Immortal)] else c
    case ReplaceIf(k, e, v) => if k in c && c[k].value == e then c[k := Entry(v, Immortal)] else c
    case PutIfAbsent(k, v) => if k in c then c else c[k := Entry(v, Immortal)]
    case PutAll(m) => c + Immortals(m)
    case Clear => map[]
  }

  function MapAnswer(c: map<Key, Entry>, w: Write): (r: Reply)
  {
    var prior := if w.PutAll? || w.Clear? || w.key !in c then None else Some(c[w.key].value);
    match w
    case ReplaceIf(_, e, _) => Applied(prior == Some(e))
    case PutAll(_) => Done
    case Clear => Done
    case _ => Prior(prior)
  }

  // ---------------------------------------------------------------------
  // Properties

  /** Passivation moves the entry, unchanged, from memory to the store, and
      readers see the same contents before and after. */
  lemma PassivateMovesEntry(t: Tiers, k: Key)
    requires Exclusive(t)
    requires k in t.memory
    ensures k !in Passivate(t, k).memory && k in Passivate(t, k).store
    ensures Passivate(t, k).store[k] == t.memory[k]
    ensures Exclusive(Passivate(t, k))
    ensures Contents(Passivate(t, k)) == Contents(t)
  {
    var r := Passivate(t, k);
    assert Contents(r) == Contents(t) by {
      forall j | j in Contents(t) ensures j in Contents(r) && Contents(r)[j] == Contents(t)[j] {
        if j != k {
          assert j in t.memory ==> j !in t.store;
        }
      }
    }
  }

  /** Activation moves the entry, unchanged, from the store to memory, and
      readers see the same contents before and after. */
  lemma ActivateMovesEntry(t: Tiers, k: Key)
    requires Exclusive(t)
    requires k in t.store
    ensures k in Activate(t, k).memory && k !in Activate(t, k).store
    ensures Activate(t, k).memory[k] == t.store[k]
    ensures Exclusive(Activate(t, k))
    ensures Contents(Activate(t, k)) == Contents(t)
  {
    var r := Activate(t, k);
    assert Contents(r) == Contents(t) by {
      forall j | j in Contents(t) ensures j in Contents(r) && Contents(r)[j] == Contents(t)[j] {
        if j != k {
          assert j in t.memory ==> j !in t.store;
        }
      }
    }
  }

  /** Evicting a memory-resident key and activating it again restores the
      tiers exactly, value and lifespan included; and the other way round. */
  lemma PassivateActivateRoundTrip(t: Tiers, k: Key)
    requires Exclusive(t)
    ensures k in t.memory ==> Activate(Passivate(t, k), k) == t
    ensures k in t.store ==> Passivate(Activate(t, k), k) == t
  {
    if k in t.memory {
      var r := Activate(Passivate(t, k), k);
      assert r.memory == t.memory;
      assert k !in t.store;
      assert r.store == t.store;
    }
    if k in t.store {
      var r := Passivate(Activate(t, k), k);
      assert r.store == t.store;
      assert k !in t.memory;
      assert r.memory == t.memory;
    }
  }

  /** Every write keeps the two tiers mutually exclusive. */
  lemma StepKeepsExclusive(t: Tiers, w: Write)
    requires Exclusive(t)
    ensures Exclusive(Step(t, w))
  {
    match w
    case PutAll(m) =>
      assert (t.memory + Immortals(m)).Keys == t.memory.Keys + m.Keys;
    case _ =>
  }

  /** Any list of writes keeps the two tiers mutually exclusive. */
  lemma {:induction false} ReplayKeepsExclusive(t: Tiers, ws: seq<Write>)
    requires Exclusive(t)
    ensures Exclusive(Replay(t, ws))
    decreases |ws|
  {
    if ws != [] {
      ReplayKeepsExclusive(t, ws[..|ws| - 1]);
      StepKeepsExclusive(Replay(t, ws[..|ws| - 1]), ws[|ws| - 1]);
    }
  }

  /** Writes only ever take entries out of the store: whatever the store
      still holds afterwards it held before, unchanged. In particular a
      committed transaction applies its writes to memory only. */
  lemma {:induction false} ReplayOnlyDrainsStore(t: Tiers, ws: seq<Write>)
    ensures Replay(t, ws).store.Keys <= t.store.Keys
    ensures forall k :: k in Replay(t, ws).store ==> Replay(t, ws).store[k] == t.store[k]
    decreases |ws|
  {
    if ws != [] {
      var init := ws[..|ws| - 1];
      ReplayOnlyDrainsStore(t, init);
      var before := Replay(t, init);
      var w := ws[|ws| - 1];
      assert Step(before, w).store.Keys <= before.store.Keys;
      assert forall k :: k in Step(before, w).store ==> Step(before, w).store[k] == before.store[k];
    }
  }

  /** `put` returns the previous value, wherever it was held, and leaves the
      new entry in memory only, with the given lifespan; no other key changes. */
  lemma PutPlacesInMemoryOnly(t: Tiers, k: Key, v: Value, l: int)
    requires Exclusive(t)
    ensures Answer(t, Put(k, v, l)) == Prior(ValueOf(t, k))
    ensures k in Step(t, Put(k, v, l)).memory && k !in Step(t, Put(k, v, l)).store
    ensures Step(t, Put(k, v, l)).memory[k] == Entry(v, l)
    ensures forall j :: j != k ==> ValueOf(Step(t, Put(k, v, l)), j) == ValueOf(t, j)
  {
  }

  /** The tiers once the entries of `values` under the keys `done` have been put one by one. */
  function PutAllPartly(t: Tiers, values: map<Key, Value>, done: set<Key>): (r: Tiers)
  {
    Tiers(map j | j in t.memory.Keys + (values.Keys * done) ::
            if j in values && j in done then Entry(values[j], Immortal) else t.memory[j],
          t.store - done)
  }

  /** Putting one more entry of `values` extends what has been put so far. */
  lemma PutAllOneMore(t: Tiers, values: map<Key, Value>, done: set<Key>, k: Key)
    requires k in values
    ensures Step(PutAllPartly(t, values, done), Put(k, values[k], Immortal)) == PutAllPartly(t, values, done + {k})
  {
    var before := PutAllPartly(t, values, done);
    var after := PutAllPartly(t, values, done + {k});
    var r := Step(before, Put(k, values[k], Immortal));
    assert r.memory == before.memory[k := Entry(values[k], Immortal)];
    assert r.store == after.store;
  }

  /** Putting every entry of `values` one by one is `putAll`. */
  lemma PutAllIsEveryPut(t: Tiers, values: map<Key, Value>)
    ensures PutAllPartly(t, values, values.Keys) == Step(t, PutAll(values))
    ensures PutAllPartly(t, values, {}) == t
  {
    assert (map k | k in values && k in values.Keys :: values[k]) == values;
    assert PutAllPartly(t, values, {}).memory == t.memory;
  }

  /** `remove` returns the previous value and leaves the key in neither tier. */
  lemma RemoveLeavesNeither(t: Tiers, k: Key)
    requires Exclusive(t)
    ensures Answer(t, Remove(k)) == Prior(ValueOf(t, k))
    ensures k !in Step(t, Remove(k)).memory && k !in Step(t, Remove(k)).store
    ensures forall j :: j != k ==> ValueOf(Step(t, Remove(k)), j) == ValueOf(t, j)
  {
  }

  /** Unconditional `replace` on a present key behaves as a `put` without
      lifespan; on an absent key it returns nothing and changes nothing. */
  lemma ReplaceActsOnPresentKeyOnly(t: Tiers, k: Key, v: Value)
    requires Exclusive(t)
    ensures Answer(t, Replace(k, v)) == Prior(ValueOf(t, k))
    ensures ValueOf(t, k).Some? ==> Step(t, Replace(k, v)) == Step(t, Put(k, v, Immortal))
    ensures ValueOf(t, k).None? ==> Step(t, Replace(k, v)) == t
  {
  }

  /** A conditional `replace` of a passivated key succeeds exactly when the
      stored value is the expected one; either way the key is activated, and
      on failure it keeps its value and lifespan. */
  lemma ReplaceIfActivates(t: Tiers, k: Key, expected: Value, v: Value)
    requires Exclusive(t)
    requires k in t.store
    ensures Answer(t, ReplaceIf(k, expected, v)) == Applied(t.store[k].value == expected)
    ensures k in Step(t, ReplaceIf(k, expected, v)).memory && k !in Step(t, ReplaceIf(k, expected, v)).store
    ensures Step(t, ReplaceIf(k, expected, v)).memory[k]
         == if t.store[k].value == expected then Entry(v, Immortal) else t.store[k]
  {
  }

  /** `putIfAbsent` on a present key returns its value, keeps it and activates
      it; on an absent key it returns nothing and puts the value in memory only. */
  lemma PutIfAbsentEffect(t: Tiers, k: Key, v: Value)
    requires Exclusive(t)
    ensures Answer(t, PutIfAbsent(k, v)) == Prior(ValueOf(t, k))
    ensures k in Step(t, PutIfAbsent(k, v)).memory && k !in Step(t, PutIfAbsent(k, v)).store
    ensures k in t.memory ==> Step(t, PutIfAbsent(k, v)).memory[k] == t.memory[k]
    ensures k in t.store ==> Step(t, PutIfAbsent(k, v)).memory[k] == t.store[k]
    ensures ValueOf(t, k).None? ==> Step(t, PutIfAbsent(k, v)).memory[k] == Entry(v, Immortal)
  {
  }

  /** `putAll` leaves every given key in memory only, without lifespan, and
      every other key as it was. */
  lemma PutAllPlacesInMemoryOnly(t: Tiers, values: map<Key, Value>)
    requires Exclusive(t)
    ensures forall k :: k in values ==>
      k in Step(t, PutAll(values)).memory && k !in Step(t, PutAll(values)).store &&
      Step(t, PutAll(values)).memory[k] == Entry(values[k], Immortal)
    ensures forall k :: k !in values ==>
      Find(Step(t, PutAll(values)).memory, k) == Find(t.memory, k) &&
      Find(Step(t, PutAll(values)).store, k) == Find(t.store, k)
  {
  }

  /** With passivation, `clear` empties the in-memory container: every key it
      held is then in neither tier. Passivated entries stay in the store, so
      `clear` has its one-map effect exactly when nothing is passivated. */
  lemma ClearForgetsMemoryOnly(t: Tiers)
    requires Exclusive(t)
    ensures forall k :: k in t.memory ==>
      k !in Step(t, Clear).memory && k !in Step(t, Clear).store && ValueOf(Step(t, Clear), k) == None
    ensures forall k :: k in t.store ==> ValueOf(Step(t, Clear), k) == Some(t.store[k].value)
    ensures Answer(t, Clear) == MapAnswer(Contents(t), Clear)
    ensures Contents(Step(t, Clear)) == MapStep(Contents(t), Clear) <==> t.store == map[]
  {
    if t.store != map[] {
      var k :| k in t.store;
      assert k in Contents(Step(t, Clear));
    }
  }

  /** Setting a memory entry of a key the store does not hold sets it in the contents. */
  lemma ContentsAfterSet(a: Tiers, k: Key, e: Entry)
    requires k !in a.store
    ensures Contents(Tiers(a.memory[k := e], a.store)) == Contents(a)[k := e]
  {
  }

  /** Dropping a memory entry of a key the store does not hold drops it from the contents. */
  lemma ContentsAfterDrop(a: Tiers, k: Key)
    requires k !in a.store
    ensures Contents(Tiers(a.memory - {k}, a.store)) == Contents(a) - {k}
  {
    var r := Tiers(a.memory - {k}, a.store);
    forall j | j in Contents(r) ensures j in Contents(a) - {k} && Contents(r)[j] == (Contents(a) - {k})[j] {
    }
  }

  /** Activating the key a write is about changes nothing a reader sees, and
      afterwards the store does not hold that key. */
  lemma ActivateForWrite(t: Tiers, k: Key)
    requires Exclusive(t)
    ensures Contents(Activate(t, k)) == Contents(t)
    ensures k !in Activate(t, k).store
    ensures k in Activate(t, k).memory <==> k in Contents(t)
    ensures k in Contents(t) ==> Activate(t, k).memory[k] == Contents(t)[k]
    ensures ValueOf(t, k) == if k in Contents(t) then Some(Contents(t)[k].value) else None
  {
    if k in t.store {
      ActivateMovesEntry(t, k);
    }
  }

  /** Passivation is invisible to readers: apart from `clear`, every write has
      the effect and the return value it has on a cache held in one map. */
  lemma StepIsTransparent(t: Tiers, w: Write)
    requires Exclusive(t)
    ensures Answer(t, w) == MapAnswer(Contents(t), w)
    ensures !w.Clear? ==> Contents(Step(t, w)) == MapStep(Contents(t), w)
  {
    var c := Contents(t);
    match w
    case Put(k, v, l) =>
      ActivateForWrite(t, k);
      ContentsAfterSet(Activate(t, k), k, Entry(v, l));
    case Remove(k) =>
      ActivateForWrite(t, k);
      ContentsAfterDrop(Activate(t, k), k);
    case Replace(k, v) =>
      ActivateForWrite(t, k);
      ContentsAfterSet(Activate(t, k), k, Entry(v, Immortal));
    case ReplaceIf(k, e, v) =>
      ActivateForWrite(t, k);
      ContentsAfterSet(Activate(t, k), k, Entry(v, Immortal));
    case PutIfAbsent(k, v) =>
      ActivateForWrite(t, k);
      ContentsAfterSet(Activate(t, k), k, Entry(v, Immortal));
    case PutAll(m) =>
      var r := Step(t, w);
      forall j | j in Contents(r) ensures j in MapStep(c, w) && Contents(r)[j] == MapStep(c, w)[j] {
      }
    case Clear =>
  }

  /** Reference semantics of a list of writes on a cache held in one map. */
  function MapReplay(c: map<Key, Entry>, ws: seq<Write>): (r: map<Key, Entry>)
    decreases |ws|
  {
    if ws == [] then c else MapStep(MapReplay(c, ws[..|ws| - 1]), ws[|ws| - 1])
  }

  /** A list of writes without `clear` leaves readers seeing what they would
      see on a cache held in one map. */
  lemma {:induction false} ReplayIsTransparent(t: Tiers, ws: seq<Write>)
    requires Exclusive(t)
    requires forall i :: 0 <= i < |ws| ==> !ws[i].Clear?
    ensures Contents(Replay(t, ws)) == MapReplay(Contents(t), ws)
    decreases |ws|
  {
    if ws != [] {
      var init := ws[..|ws| - 1];
      ReplayIsTransparent(t, init);
      ReplayKeepsExclusive(t, init);
      StepIsTransparent(Replay(t, init), ws[|ws| - 1]);
    }
  }
}
