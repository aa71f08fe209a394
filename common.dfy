/** Shared vocabulary of the backend model: optional values and identifiers. */
module Common {

  /** A value that may be absent (`undefined` or `null` in the source). */
  datatype Option<+T> = None | Some(value: T) {
    function GetOr(default: T): T {
      match this
      case Some(v) => v
      case None => default
    }
  }

  /** Every row and document identifier. The databases generate them (UUIDs for rows,
      ObjectIds for documents); the model draws them from a counter, so a new identifier
      is one that no table or collection uses yet. */
  type Id = nat

  /** The keys of `m` are all below `bound`: the counter has not handed them out again. */
  ghost predicate KeysBelow<V>(m: map<Id, V>, bound: nat) {
    forall k :: k in m ==> k < bound
  }
}
