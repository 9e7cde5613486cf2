/** The optional value used by the lookups and the aggregator-list parser. */
module Wrappers {
  datatype Option<T> = None | Some(value: T)
}
