/** The world state the chaincode runs against: the current value under each
    key, and each key's change log, which every committed write extends. */
module Ledger {
  import opened Results

  /** What a transaction knows about its own context: the MSP id of the
      calling organisation (or the identity service's error when it cannot be
      resolved), its transaction id, and its timestamp in seconds and
      nanoseconds. */
  datatype Tx = Tx(mspId: Result<string, string>, txId: string, seconds: int, nanos: int)

  /** One entry of a key's change log, as the history iterator yields it. */
  datatype KeyModification = KeyModification(txId: string, value: string, seconds: int, nanos: int, isDelete: bool)

  datatype World = World(state: map<string, string>, log: map<string, seq<KeyModification>>)

  const EmptyWorld := World(map[], map[])

  /** The message the store gives for a write under the empty key. */
  const EmptyKeyMessage := "key must not be an empty string"

  /** The stored value under key; None when nothing is stored there. */
  function GetState(w: World, key: string): Option<string> {
    if key in w.state then Some(w.state[key]) else None
  }

  /** The change log of key, oldest first. */
  function HistoryOf(w: World, key: string): seq<KeyModification> {
    if key in w.log then w.log[key] else []
  }

  function Written(tx: Tx, value: string): KeyModification {
    KeyModification(tx.txId, value, tx.seconds, tx.nanos, false)
  }

  /** A write by tx that the store accepted: it replaces the value under key
      and appends one entry to that key's log; other keys are untouched. */
  function Put(w: World, tx: Tx, key: string, value: string): (w': World)
    ensures GetState(w', key) == Some(value)
    ensures HistoryOf(w', key) == HistoryOf(w, key) + [Written(tx, value)]
    ensures forall k :: k != key ==> GetState(w', k) == GetState(w, k)
    ensures forall k :: k != key ==> HistoryOf(w', k) == HistoryOf(w, k)
  {
    World(w.state[key := value], w.log[key := HistoryOf(w, key) + [Written(tx, value)]])
  }

  /** The store's write: it refuses the empty key and leaves the world as it is. */
  function PutState(w: World, tx: Tx, key: string, value: string): Result<World, string> {
    if key == "" then Err(EmptyKeyMessage) else Ok(Put(w, tx, key, value))
  }

  /** The current value under each key is the last entry of its log, and no
      key has a log without a value (nothing in this ledger is deleted). */
  ghost predicate Consistent(w: World) {
    && w.state.Keys == w.log.Keys
    && forall k | k in w.log :: |w.log[k]| > 0 && !w.log[k][|w.log[k]| - 1].isDelete
                                && w.log[k][|w.log[k]| - 1].value == w.state[k]
  }

  lemma EmptyWorldConsistent()
    ensures Consistent(EmptyWorld)
  {
  }

  /** An accepted write keeps the log and the state in step. */
  lemma PutConsistent(w: World, tx: Tx, key: string, value: string)
    requires Consistent(w)
    ensures Consistent(Put(w, tx, key, value))
  {
    var w' := Put(w, tx, key, value);
    forall k | k in w'.log
      ensures |w'.log[k]| > 0 && !w'.log[k][|w'.log[k]| - 1].isDelete
              && w'.log[k][|w'.log[k]| - 1].value == w'.state[k]
    {
      if k != key {
        assert w'.log[k] == w.log[k];
      }
    }
  }

  /** Under Consistent, a key holds a value exactly when it has a history,
      and the last entry of that history carries the current value. */
  lemma ConsistentHistory(w: World, key: string)
    requires Consistent(w)
    ensures GetState(w, key).Some? <==> |HistoryOf(w, key)| > 0
    ensures GetState(w, key).Some? ==> HistoryOf(w, key)[|HistoryOf(w, key)| - 1].value == GetState(w, key).value
  {
  }
}
