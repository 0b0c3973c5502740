/**
 The CacheStore contract, realised by a map-backed store: entries keyed by
 key, plus the modification lists that `prepare` has staged per transaction.
 This is the delegate that a store decorator wraps.
 */
module CacheStores {
  import opened Entries

  /** An opaque transaction handle; the store only uses it as a correlation token. */
  type TxId = nat

  /** One pending store-side operation, as passed to `prepare`. */
  datatype Modification = Store(stored: KeyedEntry) | Remove(key: Key) | Clear

  /** The store's entries after one modification. */
  function Apply(entries: map<Key, Entry>, m: Modification): (r: map<Key, Entry>)
  {
    match m
    case Store(e) => entries[e.key := e.entry]
    case Remove(k) => entries - {k}
    case Clear => map[]
  }

  /** The store's entries after a list of modifications, applied first to last. */
  function ApplyAll(entries: map<Key, Entry>, mods: seq<Modification>): (r: map<Key, Entry>)
    decreases |mods|
  {
    if mods == [] then entries
    else Apply(ApplyAll(entries, mods[..|mods| - 1]), mods[|mods| - 1])
  }

  /** The modifications that store each decoded entry of a stream in order. */
  function AsStores(input: seq<KeyedEntry>): (mods: seq<Modification>)
    ensures |mods| == |input|
    ensures forall i :: 0 <= i < |input| ==> mods[i] == Store(input[i])
  {
    seq(|input|, i requires 0 <= i < |input| => Store(input[i]))
  }

  /** A map-backed store (the concrete store at the root of a decorator chain). */
  class MapStore {
    var entries: map<Key, Entry>
    var pending: map<TxId, seq<Modification>>

    constructor()
      ensures entries == map[] && pending == map[]
    {
      entries := map[];
      pending := map[];
    }

    method Load(key: Key) returns (r: Option<Entry>)
      ensures r.Some? <==> key in entries
      ensures r.Some? ==> r.value == entries[key]
    {
      r := if key in entries then Some(entries[key]) else None;
    }

    method ContainsKey(key: Key) returns (present: bool)
      ensures present <==> key in entries
    {
      present := key in entries;
    }

    method Store(e: KeyedEntry)
      modifies this
      ensures entries == old(entries)[e.key := e.entry]
      ensures pending == old(pending)
    {
      entries := entries[e.key := e.entry];
    }

    /** Reports whether there was an entry to remove. */
    method Remove(key: Key) returns (removed: bool)
      modifies this
      ensures removed <==> key in old(entries)
      ensures entries == old(entries) - {key}
      ensures pending == old(pending)
    {
      removed := key in entries;
      entries := entries - {key};
    }

    method Clear()
      modifies this
      ensures entries == map[]
      ensures pending == old(pending)
    {
      entries := map[];
    }

    /** Stores every entry decoded from a stream, in stream order. */
    method FromStream(input: seq<KeyedEntry>)
      modifies this
      ensures entries == ApplyAll(old(entries), AsStores(input))
      ensures pending == old(pending)
    {
      ApplyModifications(AsStores(input));
    }

    /** Applies a modification list immediately. */
    method ApplyModifications(mods: seq<Modification>)
      modifies this
      ensures entries == ApplyAll(old(entries), mods)
      ensures pending == old(pending)
    {
      var i := 0;
      while i < |mods|
        invariant 0 <= i <= |mods|
        invariant entries == ApplyAll(old(entries), mods[..i])
        invariant pending == old(pending)
      {
        assert mods[..i + 1][..i] == mods[..i];
        match mods[i] {
          case Store(e) => Store(e);
          case Remove(k) => var _ := Remove(k);
          case Clear => Clear();
        }
        i := i + 1;
      }
      assert mods[..i] == mods;
    }

    /** Stages `mods` under `tx`, or applies them at once when `onePhase` holds. */
    method Prepare(mods: seq<Modification>, tx: TxId, onePhase: bool)
      modifies this
      ensures onePhase ==> entries == ApplyAll(old(entries), mods) && pending == old(pending)
      ensures !onePhase ==> entries == old(entries) && pending == old(pending)[tx := mods]
    {
      if onePhase {
        ApplyModifications(mods);
      } else {
        pending := pending[tx := mods];
      }
    }

    /** Applies what was staged under `tx`, if anything, and forgets it. */
    method Commit(tx: TxId)
      modifies this
      ensures entries == if tx in old(pending) then ApplyAll(old(entries), old(pending)[tx]) else old(entries)
      ensures pending == old(pending) - {tx}
    {
      if tx in pending {
        var mods := pending[tx];
        ApplyModifications(mods);
      }
      pending := pending - {tx};
    }

    /** Discards what was staged under `tx`, if anything. */
    method Rollback(tx: TxId)
      modifies this
      ensures entries == old(entries)
      ensures pending == old(pending) - {tx}
    {
      pending := pending - {tx};
    }
  }
}
