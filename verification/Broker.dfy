/** The boundary between the platform and any execution venue
    (internal/broker/adapter.go). A venue is an adversary here: every answer it
    can give is a value of `Answer`, and nothing constrains which one it gives. */
module Broker {

  /** The canonical order state. `Unnamed` is any text the platform does not know,
      the empty text included. */
  datatype ExecutionState =
    | Unknown
    | Accepted
    | Rejected
    | PartiallyFilled
    | Filled
    | Cancelled
    | Expired
    | Unnamed(text: string)
  {
    /** Whether the state can no longer change at the venue. */
    predicate Terminal() {
      Filled? || Rejected? || Cancelled? || Expired?
    }
  }

  /** A venue's order report. Reported quantities are observations, never inputs to
      a decision, so one opaque number stands for all of them. */
  datatype BrokerOrder = BrokerOrder(
    clientOrderID: string,
    brokerOrderID: string,
    state: ExecutionState,
    filledQuantity: real,
    rejectReason: string)

  /** What a call to the venue produces: an order, the timeout that means the outcome
      is unknown, the lookup error, or any other error. */
  datatype Answer =
    | Order(order: BrokerOrder)
    | Timeout
    | NotFound
    | Failed(reason: string)
}
