/** Datatypes shared by every module of the project. */
module Basics {
  datatype Option<+T> = None | Some(value: T) {
    /** The option as a sequence of at most one element. */
    function AsSeq(): seq<T> {
      match this
      case None => []
      case Some(v) => [v]
    }

    function GetOr(default: T): T {
      match this
      case None => default
      case Some(v) => v
    }
  }

  datatype Result<+T, +E> = Ok(value: T) | Err(error: E)

  /** SHA-256, idealised as a free constructor: injective, and nothing else is known of it. */
  datatype Digest<T> = Digest(data: T)

  function Max(a: nat, b: nat): nat { if a < b then b else a }

  /** One of the orders in which a hash map can hand out its keys. */
  ghost predicate IsIterationOf<K(!new)>(order: seq<K>, keys: set<K>) {
    && (forall i, j :: 0 <= i < j < |order| ==> order[i] != order[j])
    && (forall k :: k in order <==> k in keys)
  }
}
