/** Names and small values shared by the services. */
module Common {

  datatype Option<+T> = None | Some(value: T)

  // Identifiers are opaque text everywhere except the key of a KDS row, which is
  // the position at which the row was inserted: only its freshness matters.
  type TaskId = string
  type OrderId = string
  type StationId = string
  type KitchenId = string
  type WorkerId = string
  type KdsId = nat

  // Instants and durations in whole microseconds, the resolution of the timestamps.
  type Time = int
  const SECOND: Time := 1_000_000

  function Max(a: int, b: int): int { if a < b then b else a }
  function Min(a: int, b: int): int { if a < b then a else b }
}
