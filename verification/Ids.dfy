/**
 Order and execution identifiers.  Each kind of execution ID is the client order ID followed by a
 tagged suffix; `Parse` recovers all of it, whatever dashes the order ID contains.
 */
module Ids {
  import opened Exchange
  import opened Text

  // ------------------------------------------------------------------ slice IDs

  /** "<parent>-slice-<i+1>", the client order ID of slice `i` (counted from zero) of an algorithmic order. */
  function SliceId(parent: string, i: nat): string {
    Dashed(Dashed(parent, "slice"), Decimal(i + 1))
  }

  /** The forms written out, here and below. */
  lemma SliceIdIs(p: string, i: nat)
    ensures SliceId(p, i) == p + "-slice-" + Decimal(i + 1)
  {
    assert p + "-slice-" + Decimal(i + 1) == p + "-" + "slice" + "-" + Decimal(i + 1);
  }

  lemma DigitsHaveNoDash(s: string)
    requires AllDigits(s)
    ensures NoDash(s)
  {}

  lemma TagsHaveNoDash()
    ensures NoDash("slice") && NoDash("rest") && NoDash("ws") && NoDash("reconcile") && NoDash("sim") && NoDash("")
  {}

  lemma SplitSliceId(p: string, i: nat)
    ensures SplitLast(SliceId(p, i)) == Some((Dashed(p, "slice"), Decimal(i + 1)))
    ensures SplitLast(Dashed(p, "slice")) == Some((p, "slice"))
  {
    hide SplitLast, Dashed;
    TagsHaveNoDash();
    DigitsHaveNoDash(Decimal(i + 1));
    SplitDashed(Dashed(p, "slice"), Decimal(i + 1));
    SplitDashed(p, "slice");
  }

  /** Distinct (parent, slice) pairs get distinct IDs, even when parents contain dashes or look like slices. */
  lemma SliceIdInjective(p: string, i: nat, q: string, j: nat)
    requires SliceId(p, i) == SliceId(q, j)
    ensures p == q && i == j
  {
    hide SplitLast, Dashed, SliceId;
    SplitSliceId(p, i);
    SplitSliceId(q, j);
    DecimalRoundTrip(i + 1);
    DecimalRoundTrip(j + 1);
  }

  // -------------------------------------------------------------- execution IDs

  datatype Source =
    | Rest(id: string, exchangeOrder: int)              // REST submit response
    | WsTrade(id: string, trade: int)                   // streamed trade
    | WsFallback(id: string, time: int, qty: string)    // streamed, no trade ID: time and quantity text
    | Reconciled(id: string, delta: string)             // boot backfill: the delta printed with %g

  /** An integer as %d prints it. */
  function Signed(n: int): string {
    if n >= 0 then Decimal(n) else Dashed("", Decimal(-n))
  }

  /** "<id>-rest-<n>", "<id>-ws-<t>", "<id>-ws-<time>-<qty>" and "<id>-reconcile-<delta>". */
  function Render(s: Source): string {
    match s
    case Rest(id, n) => Dashed(Dashed(id, "rest"), Signed(n))
    case WsTrade(id, t) => Dashed(Dashed(id, "ws"), Signed(t))
    case WsFallback(id, time, qty) => Dashed(Dashed(Dashed(id, "ws"), Signed(time)), qty)
    case Reconciled(id, delta) => Dashed(Dashed(id, "reconcile"), delta)
  }

  /** A mantissa, which starts with a digit, and the letter e. */
  predicate MantissaE(m: string) {
    |m| >= 2 && IsDigit(m[0]) && m[|m| - 1] == 'e' && NoDash(m)
  }

  /**
   The text of a positive number; only a negative exponent, as in "1e-05", puts a dash in it, and
   then the part before the dash is a mantissa and an e.
   */
  ghost predicate PositiveText(g: string) {
    NoDash(g) || exists m, e :: MantissaE(m) && NoDash(e) && g == Dashed(m, e)
  }

  /** Quantities are texts of positive numbers; everything else is unrestricted, order IDs included. */
  ghost predicate WellFormed(s: Source) {
    match s
    case Rest(_, _) => true
    case WsTrade(_, _) => true
    case WsFallback(_, _, qty) => PositiveText(qty)
    case Reconciled(_, delta) => PositiveText(delta)
  }

  function Parse(s: string): Option<Source> {
    match SplitLast(s)
    case None => None
    case Some((s1, last)) =>
      match SplitLast(s1)
      case None => None
      case Some((s2, tag)) =>
        if tag == "reconcile" then Some(Reconciled(s2, last))
        else if tag == "rest" then ParseNumbered(true, s2, last, 1)
        else if tag == "ws" then ParseNumbered(false, s2, last, 1)
        else if AllDigits(tag) then ParseFallback(s2, tag, last)
        else
          match SplitLast(s2)
          case None => None
          case Some((s3, tag2)) =>
            if MantissaE(tag) then
              if tag2 == "reconcile" then Some(Reconciled(s3, Dashed(tag, last)))
              else ParseFallback(s3, tag2, Dashed(tag, last))
            else if tag2 == "rest" && tag == "" then ParseNumbered(true, s3, last, -1)
            else if tag2 == "ws" && tag == "" then ParseNumbered(false, s3, last, -1)
            else None
  }

  /** What stands before the digits of a fallback's time: the tag, or the tag and a minus sign. */
  function ParseFallback(front: string, digits: string, qty: string): Option<Source> {
    if !AllDigits(digits) then None
    else
      match SplitLast(front)
      case None => None
      case Some((id, tag)) =>
        var time: int := ParseDecimal(digits);
        if tag == "ws" then Some(WsFallback(id, time, qty))
        else if tag == "" then
          match SplitLast(id)
          case None => None
          case Some((id2, tag2)) => if tag2 == "ws" then Some(WsFallback(id2, -time, qty)) else None
        else None
  }

  function ParseNumbered(rest: bool, id: string, digits: string, sign: int): Option<Source> {
    if !AllDigits(digits) then None
    else
      var n: int := ParseDecimal(digits);
      Some(if rest then Rest(id, sign * n) else WsTrade(id, sign * n))
  }

  lemma ExecutionIdsAre(id: string, n: nat, qty: string)
    ensures Render(Rest(id, n)) == id + "-rest-" + Decimal(n)
    ensures Render(WsTrade(id, n)) == id + "-ws-" + Decimal(n)
    ensures Render(WsFallback(id, n, qty)) == id + "-ws-" + Decimal(n) + "-" + qty
    ensures Render(Reconciled(id, qty)) == id + "-reconcile-" + qty
    ensures SimId(id, n) == id + "-sim-rest-" + Decimal(n)
  {
    assert id + "-rest-" == id + "-" + "rest" + "-";
    assert id + "-ws-" == id + "-" + "ws" + "-";
    assert id + "-reconcile-" == id + "-" + "reconcile" + "-";
    assert id + "-sim-rest-" == id + "-" + "sim" + "-" + "rest" + "-";
  }

  lemma DigitsAreNoTag(t: string)
    requires t != [] && IsDigit(t[0])
    ensures t != "rest" && t != "ws" && t != "reconcile" && t != ""
  {}

  lemma ParseSigned(id: string, tag: string, n: int)
    requires tag == "rest" || tag == "ws"
    ensures Parse(Dashed(Dashed(id, tag), Signed(n))) == Some(if tag == "rest" then Rest(id, n) else WsTrade(id, n))
  {
    hide SplitLast, Dashed, Decimal, ParseDecimal;
    TagsHaveNoDash();
    SplitDashed(id, tag);
    var d := Decimal(if n >= 0 then n else -n);
    DigitsHaveNoDash(d);
    DecimalRoundTrip(if n >= 0 then n else -n);
    if n >= 0 {
      SplitDashed(Dashed(id, tag), d);
    } else {
      DashedAssociates(Dashed(id, tag), "", d);
      SplitDashed(Dashed(Dashed(id, tag), ""), d);
      SplitDashed(Dashed(id, tag), "");
    }
  }

  /** The front of a fallback ID, up to its time. */
  lemma SplitTime(id: string, time: int) returns (front: string, digits: string)
    ensures AllDigits(digits) && Dashed(Dashed(id, "ws"), Signed(time)) == Dashed(front, digits)
    ensures forall qty :: ParseFallback(front, digits, qty) == Some(WsFallback(id, time, qty))
  {
    hide SplitLast, Dashed, Decimal, ParseDecimal;
    TagsHaveNoDash();
    SplitDashed(id, "ws");
    digits := Decimal(if time >= 0 then time else -time);
    DecimalRoundTrip(if time >= 0 then time else -time);
    front := Dashed(id, "ws");
    if time < 0 {
      DashedAssociates(front, "", digits);
      SplitDashed(front, "");
      front := Dashed(front, "");
    }
  }

  lemma ReadFallback(id: string, time: int, qty: string)
    requires PositiveText(qty)
    ensures Parse(Render(WsFallback(id, time, qty))) == Some(WsFallback(id, time, qty))
  {
    hide SplitLast, Dashed, Decimal, ParseDecimal, ParseFallback;
    var front, digits := SplitTime(id, time);
    DigitsHaveNoDash(digits);
    DigitsAreNoTag(digits);
    var s := Dashed(front, digits);
    SplitDashed(front, digits);
    if NoDash(qty) {
      SplitDashed(s, qty);
    } else {
      var m, e :| MantissaE(m) && NoDash(e) && qty == Dashed(m, e);
      DashedAssociates(s, m, e);
      SplitDashed(Dashed(s, m), e);
      SplitDashed(s, m);
      DigitsAreNoTag(m);
      assert !IsDigit(m[|m| - 1]);
    }
  }

  lemma ReadReconciled(id: string, delta: string)
    requires PositiveText(delta)
    ensures Parse(Render(Reconciled(id, delta))) == Some(Reconciled(id, delta))
  {
    hide SplitLast, Dashed, ParseDecimal, ParseFallback;
    TagsHaveNoDash();
    var front := Dashed(id, "reconcile");
    SplitDashed(id, "reconcile");
    if NoDash(delta) {
      SplitDashed(front, delta);
    } else {
      var m, e :| MantissaE(m) && NoDash(e) && delta == Dashed(m, e);
      DashedAssociates(front, m, e);
      SplitDashed(Dashed(front, m), e);
      SplitDashed(front, m);
      DigitsAreNoTag(m);
      assert !IsDigit(m[|m| - 1]);
    }
  }

  /** Every execution ID can be read back: the forms are injective and never collide with each other. */
  lemma ExecutionIdRoundTrip(s: Source)
    requires WellFormed(s)
    ensures Parse(Render(s)) == Some(s)
  {
    hide Parse, Dashed;
    match s
    case Rest(id, n) => ParseSigned(id, "rest", n);
    case WsTrade(id, t) => ParseSigned(id, "ws", t);
    case WsFallback(id, time, qty) => ReadFallback(id, time, qty);
    case Reconciled(id, delta) => ReadReconciled(id, delta);
  }

  lemma ExecutionIdsCollisionFree(a: Source, b: Source)
    requires WellFormed(a) && WellFormed(b) && Render(a) == Render(b)
    ensures a == b
  {
    hide Parse, Render;
    ExecutionIdRoundTrip(a);
    ExecutionIdRoundTrip(b);
  }

  // ---------------------------------------------------------------- the simulator

  /** "<id>-sim-rest-<counter>". */
  function SimId(id: string, counter: nat): string {
    Dashed(Dashed(Dashed(id, "sim"), "rest"), Decimal(counter))
  }

  /** Simulator IDs collide with REST IDs exactly for an order whose own ID ends in "-sim". */
  lemma SimulatorCollidesWithRestIff(x: string, c: nat, y: string, n: int)
    ensures SimId(x, c) == Render(Rest(y, n)) <==> y == Dashed(x, "sim") && n == c
  {
    hide Dashed;
    assert SimId(x, c) == Render(Rest(Dashed(x, "sim"), c));
    if SimId(x, c) == Render(Rest(y, n)) {
      ExecutionIdsCollisionFree(Rest(Dashed(x, "sim"), c), Rest(y, n));
    }
  }

  lemma SimIdInjective(x: string, c: nat, y: string, d: nat)
    requires SimId(x, c) == SimId(y, d)
    ensures x == y && c == d
  {
    hide Dashed, SplitLast;
    SimulatorCollidesWithRestIff(x, c, Dashed(y, "sim"), d);
    TagsHaveNoDash();
    SplitDashed(x, "sim");
    SplitDashed(y, "sim");
  }

  /** The in-memory exchange: fills every order at once. */
  class Simulator {
    var counter: nat
    var known: map<string, OrderState>
    const fillPrice: real
    const flatCost: real
    const costBps: real
    const latency: int
    const alsoEmits: bool

    constructor (fillPrice: real, flatCost: real, costBps: real, latency: int, alsoEmits: bool)
      ensures counter == 0 && known == map[]
      ensures this.fillPrice == fillPrice && this.flatCost == flatCost && this.costBps == costBps
      ensures this.latency == latency && this.alsoEmits == alsoEmits
    {
      counter, known := 0, map[];
      this.fillPrice, this.flatCost, this.costBps := fillPrice, flatCost, costBps;
      this.latency, this.alsoEmits := latency, alsoEmits;
    }

    /** Whether the wait for the configured latency ends in cancellation; without one there is no wait. */
    predicate Abandons(cancelled: bool) {
      latency > 0 && cancelled
    }

    /**
     `room` says which stream subscribers can take another fill; the emission stops short of
     subscriber `reached` if the context is found cancelled there.
     */
    method SubmitOrder(o: Order, now: int, cancelled: bool, room: seq<bool>, reached: nat)
      returns (r: Option<Fill>, emitted: seq<bool>)
      requires reached <= |room|
      modifies this
      ensures r.None? == Abandons(cancelled)
      ensures r.None? ==> counter == old(counter) && known == old(known)
      ensures r.Some? ==> counter == old(counter) + 1 && known == old(known)[o.id := Filled]
      ensures r.Some? ==>
                var f := r.value;
                && f.executionId == SimId(o.id, counter)
                && f.orderId == o.id && f.instrument == o.instrument && f.side == o.side
                && f.status == Some(Filled) && f.quantity == o.quantity && f.at == now
                && f.price == (if o.price == 0.0 then fillPrice else o.price)
                && f.cost == if costBps > 0.0 then f.price * o.quantity * (costBps / 10000.0) else flatCost
      ensures |emitted| == |room|
      ensures forall i :: 0 <= i < |room| ==> (emitted[i] <==> r.Some? && alsoEmits && i < reached && room[i])
    {
      emitted := seq(|room|, _ => false);
      if latency > 0 && cancelled {
        return None, emitted;
      }
      var price := if o.price == 0.0 then fillPrice else o.price;
      counter := counter + 1;
      known := known[o.id := Filled];
      var cost := if costBps > 0.0 then price * o.quantity * (costBps / 10000.0) else flatCost;
      r := Some(Fill(o.id, SimId(o.id, counter), o.instrument, o.side, Some(Filled), o.quantity, price, cost, now));
      if alsoEmits {
        for i := 0 to reached
          invariant |emitted| == |room|
          invariant forall k :: 0 <= k < |room| ==> (emitted[k] <==> k < i && room[k])
        {
          emitted := emitted[i := room[i]];
        }
      }
    }

    /** Within a run no two fills share an execution ID, even for a repeated order. */
    method SubmitAll(orders: seq<Order>, times: seq<int>, cancelled: seq<bool>) returns (fills: seq<Fill>)
      requires |times| == |cancelled| == |orders|
      modifies this
      ensures counter == old(counter) + |fills|
      ensures |fills| == |orders| || exists i :: 0 <= i < |cancelled| && Abandons(cancelled[i])
      ensures forall i :: 0 <= i < |fills| ==> fills[i].executionId == SimId(fills[i].orderId, old(counter) + i + 1)
      ensures forall i, j :: 0 <= i < j < |fills| ==> fills[i].executionId != fills[j].executionId
    {
      hide SimId;
      fills := [];
      for k := 0 to |orders|
        invariant counter == old(counter) + |fills|
        invariant |fills| == k || exists i :: 0 <= i < k && Abandons(cancelled[i])
        invariant forall i :: 0 <= i < |fills| ==> fills[i].executionId == SimId(fills[i].orderId, old(counter) + i + 1)
      {
        var r, _ := SubmitOrder(orders[k], times[k], cancelled[k], [], 0);
        if r.Some? {
          fills := fills + [r.value];
        }
      }
      forall i, j | 0 <= i < j < |fills|
        ensures fills[i].executionId != fills[j].executionId
      {
        if fills[i].executionId == fills[j].executionId {
          SimIdInjective(fills[i].orderId, old(counter) + i + 1, fills[j].orderId, old(counter) + j + 1);
        }
      }
    }
  }
}
