/** Pre-trade checks: order-ID validation and the per-instrument limits. */
module Risk {
  import opened Exchange
  import opened Text

  // --------------------------------------------------------------- order IDs

  datatype IdError = Empty | TooLong | InvalidChar

  const MAX_ORDER_ID_LEN := 64

  predicate IdChar(c: char) {
    'A' <= c <= 'Z' || 'a' <= c <= 'z' || '0' <= c <= '9' || c == '_' || c == '-'
  }

  /** Scans left to right for a character outside the accepted class. */
  predicate AllIdChars(id: string) {
    id == "" || (IdChar(id[0]) && AllIdChars(id[1..]))
  }

  function ValidateOrderId(id: string): Option<IdError> {
    if id == "" then Some(Empty)
    else if |id| > MAX_ORDER_ID_LEN then Some(TooLong)
    else if AllIdChars(id) then None
    else Some(InvalidChar)
  }

  lemma {:induction false} ScanFindsEveryChar(id: string)
    ensures AllIdChars(id) <==> forall i :: 0 <= i < |id| ==> IdChar(id[i])
  {
    if id != "" {
      ScanFindsEveryChar(id[1..]);
      assert forall i :: 1 <= i < |id| ==> id[i] == id[1..][i - 1];
    }
  }

  /** Accepted IDs are exactly `[A-Za-z0-9_-]{1,64}`; an empty one and an over-long one are called so. */
  lemma AcceptedIdsAre(id: string)
    ensures ValidateOrderId(id).None?
       <==> 1 <= |id| <= 64
            && forall i :: 0 <= i < |id| ==>
                             || 'A' <= id[i] <= 'Z' || 'a' <= id[i] <= 'z' || '0' <= id[i] <= '9'
                             || id[i] == '_' || id[i] == '-'
    ensures ValidateOrderId(id) == Some(Empty) <==> |id| == 0
    ensures ValidateOrderId(id) == Some(TooLong) <==> |id| > 64
  {
    ScanFindsEveryChar(id);
  }

  // ------------------------------------------------------------------ limits

  /** Zero on a field means no cap. */
  datatype Limits = Limits(maxQty: real, maxNotional: real, minQty: real)

  datatype Policy = Policy(defaultMaxQty: real, defaultMaxNotional: real, instruments: map<string, Limits>)

  datatype Refusal = BelowMinimum | QtyExceeded | NotionalExceeded

  function LimitsFor(p: Policy, instrument: string): Limits {
    if Upper(instrument) in p.instruments then p.instruments[Upper(instrument)]
    else Limits(p.defaultMaxQty, p.defaultMaxNotional, 0.0)
  }

  /** An instrument in the policy, in any case, has its own limits; any other has the defaults and no minimum. */
  lemma LimitsAre(p: Policy, instrument: string)
    ensures Upper(instrument) in p.instruments ==> LimitsFor(p, instrument) == p.instruments[Upper(instrument)]
    ensures Upper(instrument) !in p.instruments ==>
              var l := LimitsFor(p, instrument);
              l.maxQty == p.defaultMaxQty && l.maxNotional == p.defaultMaxNotional && l.minQty == 0.0
  {}

  /** A missing policy allows everything. */
  function CheckIntent(policy: Option<Policy>, o: Order): Option<Refusal> {
    match policy
    case None => None
    case Some(p) =>
      var l := LimitsFor(p, o.instrument);
      if l.minQty > 0.0 && o.quantity < l.minQty then Some(BelowMinimum)
      else if l.maxQty > 0.0 && o.quantity > l.maxQty then Some(QtyExceeded)
      else if l.maxNotional > 0.0 && o.price > 0.0 && o.quantity * o.price > l.maxNotional then Some(NotionalExceeded)
      else None
  }

  /** The two ceilings of an order's instrument. */
  predicate WithinCaps(policy: Option<Policy>, o: Order) {
    policy.Some? ==>
      var l := LimitsFor(policy.value, o.instrument);
      && (l.maxQty > 0.0 ==> o.quantity <= l.maxQty)
      && (l.maxNotional > 0.0 && o.price > 0.0 ==> o.quantity * o.price <= l.maxNotional)
  }

  predicate AboveFloor(policy: Option<Policy>, o: Order) {
    policy.Some? ==>
      var l := LimitsFor(policy.value, o.instrument);
      l.minQty > 0.0 ==> l.minQty <= o.quantity
  }

  /** An intent passes exactly when it is within both ceilings and above the floor; a floor broken is named first. */
  lemma AllowedIff(policy: Option<Policy>, o: Order)
    ensures CheckIntent(policy, o).None? <==> WithinCaps(policy, o) && AboveFloor(policy, o)
    ensures policy.None? ==> CheckIntent(policy, o).None?
    ensures policy.Some? ==>
              var l, q := LimitsFor(policy.value, o.instrument), o.quantity;
              var low, high := l.minQty > 0.0 && q < l.minQty, l.maxQty > 0.0 && q > l.maxQty;
              var dear := l.maxNotional > 0.0 && o.price > 0.0 && q * o.price > l.maxNotional;
              && (CheckIntent(policy, o) == Some(BelowMinimum) <==> low)
              && (CheckIntent(policy, o) == Some(QtyExceeded) <==> high && !low)
              && (CheckIntent(policy, o) == Some(NotionalExceeded) <==> dear && !low && !high)
  {}

  /** Both ceilings pass from an order to any smaller order like it, so they survive slicing. */
  lemma SmallerOrdersStayWithinCaps(policy: Option<Policy>, o: Order, id: string, q: real)
    requires WithinCaps(policy, o) && q <= o.quantity
    ensures WithinCaps(policy, o.(id := id, quantity := q))
  {
    if o.price > 0.0 {
      assert (o.quantity - q) * o.price >= 0.0;
    }
  }
}
