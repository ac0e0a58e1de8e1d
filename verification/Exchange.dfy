/** The venue-independent records shared by every other module. */
module Exchange {
  datatype Option<+T> = None | Some(value: T)

  /** BUY, SELL, or any other text a producer may have put in the field. */
  datatype Side = Buy | Sell | OtherSide(text: string)

  datatype OrderState =
    | Pending
    | Submitted
    | PartiallyFilled
    | Filled
    | Canceled
    | Rejected
    | Expired

  predicate Terminal(st: OrderState) {
    st.Filled? || st.Canceled? || st.Rejected? || st.Expired?
  }

  datatype Order = Order(id: string, instrument: string, side: Side, quantity: real, price: real, kind: string)

  /** `status` is None when the producer left the field empty. */
  datatype Fill = Fill(orderId: string, executionId: string, instrument: string, side: Side,
                       status: Option<OrderState>, quantity: real, price: real, cost: real, at: int)

  /** The order state a fill reports; an empty status means filled. */
  function Reported(f: Fill): OrderState {
    if f.status.Some? then f.status.value else Filled
  }

  /** What the exchange answers when asked about one order; `time` is None if it reported none. */
  datatype StatusResult = StatusResult(state: OrderState, executed: real, price: real, time: Option<int>)
}
