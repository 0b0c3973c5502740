/**
 The read-only store decorator: a store that wraps one delegate store, lets
 reads through to it and turns every write-side call into a no-op, so that
 the delegate behaves as a pure loader.
 */
module Decorators {
  import opened Entries
  import opened CacheStores

  /** A write-side call that a client may issue on a store. */
  datatype StoreCall =
    | StoreEntry(stored: KeyedEntry)
    | FromStreamCall(input: seq<KeyedEntry>)
    | ClearCall
    | RemoveKey(key: Key)
    | PurgeExpiredCall
    | PrepareCall(mods: seq<Modification>, tx: TxId, onePhase: bool)
    | CommitCall(tx: TxId)
    | RollbackCall(tx: TxId)

  /** How many of `calls` are `remove` calls. */
  function RemoveCalls(calls: seq<StoreCall>): (r: nat)
    decreases |calls|
  {
    if calls == [] then 0
    else RemoveCalls(calls[..|calls| - 1]) + (if calls[|calls| - 1].RemoveKey? then 1 else 0)
  }

  /** The state of a delegate store: its entries and its staged modification lists. */
  datatype StoreState = StoreState(entries: map<Key, Entry>, pending: map<TxId, seq<Modification>>)

  /** What a write-side call does to a bare delegate, issued without the decorator. */
  function DirectEffect(s: StoreState, call: StoreCall): (r: StoreState)
  {
    match call
    case StoreEntry(e) => StoreState(Apply(s.entries, Store(e)), s.pending)
    case FromStreamCall(input) => StoreState(ApplyAll(s.entries, AsStores(input)), s.pending)
    case ClearCall => StoreState(map[], s.pending)
    case RemoveKey(k) => StoreState(s.entries - {k}, s.pending)
    case PurgeExpiredCall => s
    case PrepareCall(mods, tx, onePhase) =>
      if onePhase then StoreState(ApplyAll(s.entries, mods), s.pending)
      else StoreState(s.entries, s.pending[tx := mods])
    case CommitCall(tx) =>
      StoreState(if tx in s.pending then ApplyAll(s.entries, s.pending[tx]) else s.entries, s.pending - {tx})
    case RollbackCall(tx) => StoreState(s.entries, s.pending - {tx})
  }

  /** The calls the decorator suppresses are real writes on a bare delegate:
      each of these changes the delegate's state when issued directly. */
  lemma DirectCallsChangeDelegate(s: StoreState, e: KeyedEntry, k: Key, mods: seq<Modification>, tx: TxId)
    ensures e.key !in s.entries ==> DirectEffect(s, StoreEntry(e)) != s
    ensures |mods| == 1 && mods[0] == Store(e) && e.key !in s.entries ==>
      DirectEffect(s, PrepareCall(mods, tx, true)) != s
    ensures e.key !in s.entries ==> DirectEffect(s, FromStreamCall([e])) != s
    ensures k in s.entries ==> DirectEffect(s, RemoveKey(k)) != s
    ensures s.entries != map[] ==> DirectEffect(s, ClearCall) != s
    ensures tx !in s.pending ==> DirectEffect(s, PrepareCall(mods, tx, false)) != s
    ensures tx in s.pending ==> DirectEffect(s, CommitCall(tx)) != s && DirectEffect(s, RollbackCall(tx)) != s
  {
    if |mods| == 1 && mods[0] == Store(e) {
      assert mods[..0] == [];
    }
    assert AsStores([e]) == [Store(e)];
    assert AsStores([e])[..0] == [];
  }

  class ReadOnlyStore {
    /** The wrapped store, owned by this decorator alone. */
    const delegate: MapStore

    constructor(delegate: MapStore)
      ensures this.delegate == delegate
    {
      this.delegate := delegate;
    }

    /** Not overridden: answers exactly as the delegate does. */
    method Load(key: Key) returns (r: Option<Entry>)
      ensures r.Some? <==> key in delegate.entries
      ensures r.Some? ==> r.value == delegate.entries[key]
    {
      r := delegate.Load(key);
    }

    /** Not overridden: answers exactly as the delegate does. */
    method ContainsKey(key: Key) returns (present: bool)
      ensures present <==> key in delegate.entries
    {
      present := delegate.ContainsKey(key);
    }

    method Store(e: KeyedEntry)
      ensures unchanged(delegate)
    {
    }

    method FromStream(input: seq<KeyedEntry>)
      ensures unchanged(delegate)
    {
    }

    method Clear()
      ensures unchanged(delegate)
    {
    }

    /** Never removes anything, so never reports a removal, even for a key the delegate holds. */
    method Remove(key: Key) returns (removed: bool)
      ensures !removed
      ensures unchanged(delegate)
    {
      removed := false;
    }

    method PurgeExpired()
      ensures unchanged(delegate)
    {
    }

    method Commit(tx: TxId)
      ensures unchanged(delegate)
    {
    }

    method Rollback(tx: TxId)
      ensures unchanged(delegate)
    {
    }

    /** Stages nothing and, even in one phase, applies nothing. */
    method Prepare(mods: seq<Modification>, tx: TxId, onePhase: bool)
      ensures unchanged(delegate)
    {
    }

    /** Issues a whole sequence of write-side calls through the decorator;
        `removals` holds what each `remove` among them returned. */
    method Issue(calls: seq<StoreCall>) returns (removals: seq<bool>)
      ensures |removals| == RemoveCalls(calls)
      ensures forall i :: 0 <= i < |removals| ==> !removals[i]
      ensures unchanged(delegate)
    {
      removals := [];
      var i := 0;
      while i < |calls|
        invariant 0 <= i <= |calls|
        invariant |removals| == RemoveCalls(calls[..i])
        invariant forall j :: 0 <= j < |removals| ==> !removals[j]
      {
        assert calls[..i + 1][..i] == calls[..i];
        match calls[i] {
          case StoreEntry(e) => Store(e);
          case FromStreamCall(input) => FromStream(input);
          case ClearCall => Clear();
          case RemoveKey(k) =>
            var removed := Remove(k);
            removals := removals + [removed];
          case PurgeExpiredCall => PurgeExpired();
          case PrepareCall(mods, tx, onePhase) => Prepare(mods, tx, onePhase);
          case CommitCall(tx) => Commit(tx);
          case RollbackCall(tx) => Rollback(tx);
        }
        i := i + 1;
      }
      assert calls[..i] == calls;
    }
  }

  /** Issues one write-side call on a bare delegate, using the delegate's own operations. */
  method IssueDirect(d: MapStore, call: StoreCall) returns (removed: bool)
    modifies d
    ensures StoreState(d.entries, d.pending) == DirectEffect(old(StoreState(d.entries, d.pending)), call)
    ensures removed <==> call.RemoveKey? && call.key in old(d.entries)
  {
    removed := false;
    match call {
      case StoreEntry(e) => d.Store(e);
      case FromStreamCall(input) => d.FromStream(input);
      case ClearCall => d.Clear();
      case RemoveKey(k) => removed := d.Remove(k);
      case PurgeExpiredCall =>
      case PrepareCall(mods, tx, onePhase) => d.Prepare(mods, tx, onePhase);
      case CommitCall(tx) => d.Commit(tx);
      case RollbackCall(tx) => d.Rollback(tx);
    }
  }

  /** Issues the same call first through a read-only decorator over `d`, which
      leaves `d` as it was and reports no removal, and then directly on `d`,
      which has the call's real effect. */
  method ThroughDecoratorThenDirect(d: MapStore, call: StoreCall)
    returns (seen: StoreState, decorated: seq<bool>, direct: bool)
    modifies d
    ensures seen == old(StoreState(d.entries, d.pending))
    ensures decorated == if call.RemoveKey? then [false] else []
    ensures StoreState(d.entries, d.pending) == DirectEffect(seen, call)
    ensures direct <==> call.RemoveKey? && call.key in seen.entries
  {
    var ro := new ReadOnlyStore(d);
    decorated := ro.Issue([call]);
    assert [call][..0] == [];
    seen := StoreState(d.entries, d.pending);
    direct := IssueDirect(d, call);
  }
}
