/** Shared value types: identifiers, timestamps and an optional value. */
module Types {

  /** Database row identifiers (UUIDs in the service), kept abstract as naturals. */
  type Uuid = nat

  /** Wall-clock instants, in seconds; only their order matters. */
  type Timestamp = int

  datatype Option<+T> = None | Some(value: T)
}
