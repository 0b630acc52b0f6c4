/** Fixed limits and the messages the validators report. */
module Constants {

  /** Largest number of orders the request boundary lets through to the optimizer. */
  const MAX_ORDERS: nat := 25

  /** Widest allowed span, in days, from the earliest pickup to the latest delivery. */
  const MAX_TIME_WINDOW_GAP_DAYS: int := 30

  const ROUTE_CONFLICT: string := "Orders must have same origin and destination"
  const HAZMAT_CONFLICT: string := "Cannot mix hazmat and non-hazmat orders"

  /** Reported when an order is delivered before it is picked up. */
  const INVALID_TIME_WINDOW: string := "Order has invalid time window"

  /** Reported when the combined pickup-to-delivery span is wider than the limit. */
  const TIME_WINDOW_TOO_WIDE: string := "Time window too wide for combined delivery"
}
