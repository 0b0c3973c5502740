/**
 Values shared by the store decorator and the passivation model: keys,
 values, cache entries carrying their lifespan, and an optional result.
 */
module Entries {

  /** Keys and values are opaque objects in the cache; strings are enough to
      tell them apart and to replay the functional tests literally. */
  type Key = string
  type Value = string

  /** The lifespan of an entry that never expires. */
  const Immortal: int := -1

  /** A cache entry as held by the in-memory container or by a store: its value
      and its lifespan in milliseconds (Immortal when none was given). */
  datatype Entry = Entry(value: Value, lifespan: int)

  /** An entry together with its key, as handed to a store's `store` call. */
  datatype KeyedEntry = KeyedEntry(key: Key, entry: Entry)

  /** An absent result stands for the source's `null`. */
  datatype Option<T> = None | Some(value: T)

  /** The entry stored under `k` in `m`, if any. */
  function Find(m: map<Key, Entry>, k: Key): (r: Option<Entry>)
    ensures r.Some? <==> k in m
    ensures r.Some? ==> r.value == m[k]
  {
    if k in m then Some(m[k]) else None
  }
}
