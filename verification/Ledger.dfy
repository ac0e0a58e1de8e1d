/**
 One order's quantity as the exchange executes it, as the table records it and as a consumer adds it up,
 over any mix of trades, reports, other table writes and restarts.  A streamed fill overwrites the
 record; a restart backfills what the record lacks.
 */
module Ledger {
  import opened Exchange
  import opened Sums
  import opened Tracker
  import opened Consumer
  import opened Reconcile

  datatype Happening =
    | Traded(id: string, qty: real)                     // the exchange executes
    | Streamed(fill: Fill)                              // a fill arrives on the user stream
    | Answered(fill: Fill, whole: Option<real>)         // a fill comes back with the submission
    | Saved(order: Order, st: OrderState, now: int)     // an order is added or rejected
    | Set(id: string, st: OrderState, qty: real)        // a state-only update
    | Restarted(view: View)

  /**
   An immediate fill marks the order filled, with the full quantity memory holds for it; `whole` is
   None if memory shows it filled already, and nothing is written.
   */
  function Then(rows: Rows, h: Happening): Rows {
    match h
    case Traded(_, _) => rows
    case Streamed(f) => UpdateRow(rows, f.orderId, Reported(f), f.quantity)
    case Answered(f, whole) => if whole.Some? then UpdateRow(rows, f.orderId, Filled, whole.value) else rows
    case Saved(o, st, now) => SaveRow(rows, o, st, now)
    case Set(id, st, qty) => UpdateRow(rows, id, st, qty)
    case Restarted(view) => AfterPass(rows, view)
  }

  /** The tracker's own update does to the table what the happening says. */
  lemma AnsweredIsSetState(b: Book, f: Fill)
    ensures var id := f.orderId;
            var whole := if id in b.mem.orders then b.mem.orders[id].quantity else 0.0;
            var written := if Changes(b.mem, id, Filled) then Some(whole) else None;
            Apply(b, SetState(id, Filled)).rows == Then(b.rows, Answered(f, written))
  {}

  function Finally(rows: Rows, hs: seq<Happening>): Rows
    decreases |hs|
  {
    if hs == [] then rows else Finally(Then(rows, hs[0]), hs[1..])
  }

  /** What one happening publishes about an order. */
  function Publishes(show: Show, rows: Rows, h: Happening, id: string): seq<Message> {
    match h
    case Streamed(f) => if f.orderId == id then [Message(f.executionId, f.quantity)] else []
    case Answered(f, _) => if f.orderId == id then [Message(f.executionId, f.quantity)] else []
    case Restarted(view) => Backfills(show, id, ForOrder(Backfill(rows, view, id)))
    case _ => []
  }

  function Messages(show: Show, rows: Rows, hs: seq<Happening>, id: string): seq<Message>
    decreases |hs|
  {
    if hs == [] then [] else Publishes(show, rows, hs[0], id) + Messages(show, Then(rows, hs[0]), hs[1..], id)
  }

  // --------------------------------------------------------------- streamed fills only

  /** Fills of one order, as they stream in. */
  predicate AllFor(hs: seq<Happening>, id: string) {
    forall i :: 0 <= i < |hs| ==> hs[i].Streamed? && hs[i].fill.orderId == id
  }

  function Quantities(hs: seq<Happening>): seq<real>
    requires forall i :: 0 <= i < |hs| ==> hs[i].Streamed?
  {
    seq(|hs|, i requires 0 <= i < |hs| => hs[i].fill.quantity)
  }

  lemma {:induction false} RecordIsLastStreamed(rows: Rows, hs: seq<Happening>, id: string)
    requires id in rows && hs != [] && AllFor(hs, id)
    ensures id in Finally(rows, hs) && Recorded(Finally(rows, hs), id) == hs[|hs| - 1].fill.quantity
    decreases |hs|
  {
    if |hs| > 1 {
      RecordIsLastStreamed(Then(rows, hs[0]), hs[1..], id);
    } else {
      assert hs[1..] == [];
    }
  }

  /**
   Streamed fills do not accumulate onto the record: it becomes the last of them, and so what was
   recorded plus all of them exactly when the record and those before the last add up to nothing.
   */
  lemma {:induction false} StreamedFillsAccumulateIff(rows: Rows, hs: seq<Happening>, id: string)
    requires id in rows && hs != [] && AllFor(hs, id)
    ensures var qs := Quantities(hs);
            && Recorded(Finally(rows, hs), id) == qs[|qs| - 1]
            && (Recorded(Finally(rows, hs), id) == Recorded(rows, id) + Sum(qs)
                <==> Recorded(rows, id) + Sum(qs[..|qs| - 1]) == 0.0)
  {
    RecordIsLastStreamed(rows, hs, id);
  }

  // ------------------------------------------------------- the consumer and the exchange

  function Executed(hs: seq<Happening>, id: string): real {
    if hs == [] then 0.0
    else (if hs[0].Traded? && hs[0].id == id then hs[0].qty else 0.0) + Executed(hs[1..], id)
  }

  /** The gateway was told of a trade, on the stream or in the answer to a submission. */
  predicate Tells(h: Happening, id: string) {
    (h.Streamed? || h.Answered?) && h.fill.orderId == id
  }

  function ReportedQty(hs: seq<Happening>, id: string): real {
    if hs == [] then 0.0 else (if Tells(hs[0], id) then hs[0].fill.quantity else 0.0) + ReportedQty(hs[1..], id)
  }

  function BackfillAt(rows: Rows, h: Happening, id: string): (q: real)
    ensures q >= 0.0
  {
    if h.Restarted? then Backfill(rows, h.view, id) else 0.0
  }

  function BackfilledQty(rows: Rows, hs: seq<Happening>, id: string): (q: real)
    ensures q >= 0.0
    decreases |hs|
  {
    if hs == [] then 0.0 else BackfillAt(rows, hs[0], id) + BackfilledQty(Then(rows, hs[0]), hs[1..], id)
  }

  lemma OnePublishes(show: Show, rows: Rows, h: Happening, id: string)
    ensures Sum(Amounts(Publishes(show, rows, h, id)))
         == (if Tells(h, id) then h.fill.quantity else 0.0) + BackfillAt(rows, h, id)
  {
    var ms := Publishes(show, rows, h, id);
    if ms != [] {
      assert Amounts(ms) == [ms[0].qty];
      SumOne(ms[0].qty);
    }
  }

  lemma AmountsConcat(a: seq<Message>, b: seq<Message>)
    ensures Sum(Amounts(a + b)) == Sum(Amounts(a)) + Sum(Amounts(b))
  {
    assert Amounts(a + b) == Amounts(a) + Amounts(b);
    SumConcat(Amounts(a), Amounts(b));
  }

  lemma {:induction false} PublishedTotal(show: Show, rows: Rows, hs: seq<Happening>, id: string)
    ensures Sum(Amounts(Messages(show, rows, hs, id))) == ReportedQty(hs, id) + BackfilledQty(rows, hs, id)
    decreases |hs|
  {
    if hs != [] {
      hide Publishes, Tells, BackfillAt, Sum;
      OnePublishes(show, rows, hs[0], id);
      PublishedTotal(show, Then(rows, hs[0]), hs[1..], id);
      AmountsConcat(Publishes(show, rows, hs[0], id), Messages(show, Then(rows, hs[0]), hs[1..], id));
    } else {
      assert Amounts([]) == [];
    }
  }

  /**
   A consumer that drops repeated execution IDs ends with what the exchange executed exactly when the
   reports and the backfills together exceed it by just what was dropped.
   */
  lemma ConsumerIsRightIff(show: Show, rows: Rows, hs: seq<Happening>, id: string)
    ensures var ms := Messages(show, rows, hs, id);
            && Heard(ms) == ReportedQty(hs, id) + BackfilledQty(rows, hs, id) - Dropped(ms)
            && (Heard(ms) == Executed(hs, id)
                <==> ReportedQty(hs, id) + BackfilledQty(rows, hs, id) == Executed(hs, id) + Dropped(ms))
  {
    PublishedTotal(show, rows, hs, id);
    HeardPlusDropped(Messages(show, rows, hs, id));
  }

  /** No restart finds the order active with less recorded than executed. */
  predicate RestartsFindItRecorded(rows: Rows, hs: seq<Happening>, id: string)
    decreases |hs|
  {
    hs != [] ==>
      && (hs[0].Restarted? && Reconciled(rows, hs[0].view, id) ==> hs[0].view[id].executed <= rows[id].filledQty)
      && RestartsFindItRecorded(Then(rows, hs[0]), hs[1..], id)
  }

  lemma {:induction false} NothingBackfilledIff(rows: Rows, hs: seq<Happening>, id: string)
    ensures BackfilledQty(rows, hs, id) == 0.0 <==> RestartsFindItRecorded(rows, hs, id)
    decreases |hs|
  {
    if hs != [] {
      NothingBackfilledIff(Then(rows, hs[0]), hs[1..], id);
    }
  }

  /**
   If every trade was reported once, and no two messages share an ID, the consumer is right exactly
   when no restart found the order active and under-recorded: any backfill counts a trade again.
   */
  lemma ReportedOnceIsRightIff(show: Show, rows: Rows, hs: seq<Happening>, id: string)
    requires ReportedQty(hs, id) == Executed(hs, id) && DistinctIds(Messages(show, rows, hs, id))
    ensures Heard(Messages(show, rows, hs, id)) == Executed(hs, id) <==> RestartsFindItRecorded(rows, hs, id)
  {
    ConsumerIsRightIff(show, rows, hs, id);
    DistinctAreHeard(Messages(show, rows, hs, id));
    NothingBackfilledIff(rows, hs, id);
  }

  // ------------------------------------------------------ the consumer and the record

  /** What one happening makes the consumer count beyond the change of the record. */
  function Excess(rows: Rows, h: Happening, id: string): real {
    match h
    case Traded(_, _) => 0.0
    case Streamed(f) =>
      if f.orderId != id then 0.0 else if id in rows then rows[id].filledQty else f.quantity
    case Answered(f, whole) =>
      if f.orderId != id then 0.0
      else if id in rows && whole.Some? then rows[id].filledQty + f.quantity - whole.value
      else f.quantity
    case Saved(_, _, _) => 0.0
    case Set(x, _, qty) => if x == id && id in rows then rows[id].filledQty - qty else 0.0
    case Restarted(view) =>
      if Reconciled(rows, view, id) && view[id].executed < rows[id].filledQty
      then rows[id].filledQty - view[id].executed
      else 0.0
  }

  function TotalExcess(rows: Rows, hs: seq<Happening>, id: string): real
    decreases |hs|
  {
    if hs == [] then 0.0 else Excess(rows, hs[0], id) + TotalExcess(Then(rows, hs[0]), hs[1..], id)
  }

  lemma OneHappening(show: Show, rows: Rows, h: Happening, id: string)
    ensures Sum(Amounts(Publishes(show, rows, h, id)))
         == Recorded(Then(rows, h), id) - Recorded(rows, id) + Excess(rows, h, id)
  {
    hide Sum, Publishes, Amounts;
    OnePublishes(show, rows, h, id);
  }

  /** All that is published is the growth of the record, plus every record a streamed fill overwrote. */
  lemma {:induction false} PublishedBalance(show: Show, rows: Rows, hs: seq<Happening>, id: string)
    ensures Sum(Amounts(Messages(show, rows, hs, id)))
         == Recorded(Finally(rows, hs), id) - Recorded(rows, id) + TotalExcess(rows, hs, id)
    decreases |hs|
  {
    if hs != [] {
      hide Publishes, Excess, Then, Recorded, Sum;
      OneHappening(show, rows, hs[0], id);
      PublishedBalance(show, Then(rows, hs[0]), hs[1..], id);
      AmountsConcat(Publishes(show, rows, hs[0], id), Messages(show, Then(rows, hs[0]), hs[1..], id));
    } else {
      assert Amounts([]) == [];
    }
  }

  /** The exchange answers every restart with what it has executed. */
  predicate Honest(executed: real, hs: seq<Happening>, id: string)
    decreases |hs|
  {
    hs != [] ==>
      && (hs[0].Restarted? && id in hs[0].view ==> hs[0].view[id].executed == executed)
      && Honest(executed + (if hs[0].Traded? && hs[0].id == id then hs[0].qty else 0.0), hs[1..], id)
  }

  /** The table's last word: a restart that reconciled the order. */
  predicate EndsReconciled(rows: Rows, hs: seq<Happening>, id: string)
    decreases |hs|
  {
    hs != [] &&
    if |hs| == 1 then hs[0].Restarted? && Reconciled(rows, hs[0].view, id)
    else EndsReconciled(Then(rows, hs[0]), hs[1..], id)
  }

  lemma {:induction false} EndsWithExecuted(executed: real, rows: Rows, hs: seq<Happening>, id: string)
    requires Honest(executed, hs, id) && EndsReconciled(rows, hs, id)
    ensures Recorded(Finally(rows, hs), id) == executed + Executed(hs, id)
    decreases |hs|
  {
    if |hs| == 1 {
      assert hs[1..] == [];
      assert Finally(rows, hs) == Then(rows, hs[0]);
    } else {
      var more := if hs[0].Traded? && hs[0].id == id then hs[0].qty else 0.0;
      EndsWithExecuted(executed + more, Then(rows, hs[0]), hs[1..], id);
    }
  }

  /**
   From a record that was exact, and up to a restart that reconciled the order: the consumer is
   right exactly when the repeats it dropped make up for the records that were overwritten.
   */
  lemma ReconciledIsRightIff(show: Show, rows: Rows, hs: seq<Happening>, id: string)
    requires Honest(Recorded(rows, id), hs, id) && EndsReconciled(rows, hs, id)
    ensures Heard(Messages(show, rows, hs, id)) == Executed(hs, id)
       <==> TotalExcess(rows, hs, id) == Dropped(Messages(show, rows, hs, id))
  {
    HeardPlusDropped(Messages(show, rows, hs, id));
    PublishedBalance(show, rows, hs, id);
    EndsWithExecuted(Recorded(rows, id), rows, hs, id);
  }

  /** Trades, streamed fills and restarts, and nothing negative. */
  predicate Plain(h: Happening, id: string) {
    match h
    case Traded(_, qty) => qty >= 0.0
    case Streamed(f) => f.orderId == id ==> f.quantity >= 0.0
    case Restarted(view) => id in view ==> view[id].executed >= 0.0
    case _ => false
  }

  /** Every streamed fill met an empty record, and no restart a record above what was executed. */
  predicate NothingOverwritten(rows: Rows, hs: seq<Happening>, id: string)
    decreases |hs|
  {
    hs != [] ==>
      && (match hs[0]
          case Streamed(f) =>
            f.orderId == id ==> if id in rows then rows[id].filledQty == 0.0 else f.quantity == 0.0
          case Restarted(view) => Reconciled(rows, view, id) ==> rows[id].filledQty <= view[id].executed
          case _ => true)
      && NothingOverwritten(Then(rows, hs[0]), hs[1..], id)
  }

  lemma {:induction false} ExcessIsOverwriting(rows: Rows, hs: seq<Happening>, id: string)
    requires Recorded(rows, id) >= 0.0 && forall i :: 0 <= i < |hs| ==> Plain(hs[i], id)
    ensures TotalExcess(rows, hs, id) >= 0.0
    ensures TotalExcess(rows, hs, id) == 0.0 <==> NothingOverwritten(rows, hs, id)
    decreases |hs|
  {
    if hs != [] {
      assert Plain(hs[0], id);
      ExcessIsOverwriting(Then(rows, hs[0]), hs[1..], id);
    }
  }

  /** On a stream alone, with distinct IDs: exactly when no streamed fill overwrote anything. */
  lemma StreamedAndReconciledIsRightIff(show: Show, rows: Rows, hs: seq<Happening>, id: string)
    requires Recorded(rows, id) >= 0.0 && forall i :: 0 <= i < |hs| ==> Plain(hs[i], id)
    requires Honest(Recorded(rows, id), hs, id) && EndsReconciled(rows, hs, id)
    requires DistinctIds(Messages(show, rows, hs, id))
    ensures Heard(Messages(show, rows, hs, id)) == Executed(hs, id) <==> NothingOverwritten(rows, hs, id)
  {
    ReconciledIsRightIff(show, rows, hs, id);
    DistinctAreHeard(Messages(show, rows, hs, id));
    ExcessIsOverwriting(rows, hs, id);
  }

  // -------------------------------------------------------- one stretch, then a restart

  lemma {:induction false} FinallyConcat(rows: Rows, a: seq<Happening>, b: seq<Happening>)
    ensures Finally(rows, a + b) == Finally(Finally(rows, a), b)
    decreases |a|
  {
    hide Then;
    if a == [] {
      assert a + b == b;
    } else {
      assert (a + b)[1..] == a[1..] + b;
      FinallyConcat(Then(rows, a[0]), a[1..], b);
    }
  }

  lemma {:induction false} ExcessConcat(rows: Rows, a: seq<Happening>, b: seq<Happening>, id: string)
    ensures TotalExcess(rows, a + b, id) == TotalExcess(rows, a, id) + TotalExcess(Finally(rows, a), b, id)
    decreases |a|
  {
    hide Then, Excess;
    if a == [] {
      assert a + b == b;
    } else {
      assert (a + b)[1..] == a[1..] + b;
      ExcessConcat(Then(rows, a[0]), a[1..], b, id);
    }
  }

  /** Streaming overwrites the first record and every quantity but the last. */
  lemma {:induction false} StreamedExcess(rows: Rows, hs: seq<Happening>, id: string)
    requires id in rows && hs != [] && AllFor(hs, id)
    ensures TotalExcess(rows, hs, id) == Recorded(rows, id) + Sum(Quantities(hs)[..|hs| - 1])
    decreases |hs|
  {
    var qs := Quantities(hs);
    if |hs| == 1 {
      assert hs[1..] == [] && qs[..0] == [];
      assert TotalExcess(rows, hs, id) == Excess(rows, hs[0], id) + TotalExcess(Then(rows, hs[0]), [], id);
    } else {
      hide Sum;
      StreamedExcess(Then(rows, hs[0]), hs[1..], id);
      assert Quantities(hs[1..]) == qs[1..] && qs[1..][..|hs| - 2] == qs[..|hs| - 1][1..];
      SumCons(qs[..|hs| - 1]);
    }
  }

  /**
   A row still active after streamed fills, then a restart that finds at least the last of them
   executed: everything published adds up to the executed quantity and every fill but the last again.
   */
  lemma {:induction false} StreamedThenRestarted(show: Show, rows: Rows, hs: seq<Happening>, view: View, id: string)
    requires id in rows && hs != [] && AllFor(hs, id)
    requires var mid := Finally(rows, hs); Reconciled(mid, view, id) && view[id].executed >= Recorded(mid, id)
    ensures Sum(Amounts(Messages(show, rows, hs + [Restarted(view)], id)))
         == view[id].executed + Sum(Quantities(hs)[..|hs| - 1])
  {
    hide Sum;
    var mid, last := Finally(rows, hs), [Restarted(view)];
    PublishedBalance(show, rows, hs + last, id);
    FinallyConcat(rows, hs, last);
    ExcessConcat(rows, hs, last, id);
    StreamedExcess(rows, hs, id);
    assert last[1..] == [];
    assert Finally(mid, last) == Finally(AfterPass(mid, view), []) == AfterPass(mid, view);
    assert TotalExcess(mid, last, id) == Excess(mid, last[0], id) + TotalExcess(AfterPass(mid, view), [], id);
  }

  // --------------------------------------------------------------- finished for good

  /** A write that makes the order active again. */
  predicate Revives(h: Happening, id: string) {
    match h
    case Streamed(f) => f.orderId == id && !Terminal(Reported(f))
    case Saved(o, st, _) => o.id == id && !Terminal(st)
    case Set(x, st, _) => x == id && !Terminal(st)
    case _ => false
  }

  lemma FinishedStep(rows: Rows, h: Happening, id: string)
    requires id in rows && Terminal(rows[id].state)
    ensures id in Then(rows, h) && (Terminal(Then(rows, h)[id].state) <==> !Revives(h, id))
  {}

  /** A restart after the first `k` happenings, whatever the exchange answers, backfills nothing. */
  ghost predicate NeverBackfilled(rows: Rows, hs: seq<Happening>, k: nat, id: string)
    requires k <= |hs|
  {
    forall view :: Backfill(Finally(rows, hs[..k]), view, id) == 0.0
  }

  /** An active row can be backfilled: the exchange need only answer more than is recorded. */
  lemma ActiveCanBeBackfilled(rows: Rows, id: string)
    requires id in rows && !Terminal(rows[id].state)
    ensures exists view :: Backfill(rows, view, id) != 0.0
  {
    var view: View := map[id := StatusResult(Filled, rows[id].filledQty + 1.0, 0.0, None)];
    assert Backfill(rows, view, id) == 1.0;
  }

  lemma {:induction false} FinishedThroughout(rows: Rows, hs: seq<Happening>, id: string, k: nat)
    requires id in rows && Terminal(rows[id].state) && k <= |hs|
    requires forall i :: 0 <= i < k ==> !Revives(hs[i], id)
    ensures id in Finally(rows, hs[..k]) && Terminal(Finally(rows, hs[..k])[id].state)
    decreases k
  {
    hide Then, Revives;
    if k > 0 {
      FinishedThroughout(rows, hs, id, k - 1);
      assert hs[..k] == hs[..k - 1] + [hs[k - 1]] && [hs[k - 1]][1..] == [];
      FinallyConcat(rows, hs[..k - 1], [hs[k - 1]]);
      FinishedStep(Finally(rows, hs[..k - 1]), hs[k - 1], id);
      assert Finally(rows, hs[..k]) == Then(Finally(rows, hs[..k - 1]), hs[k - 1]);
    }
  }

  /**
   A finished order, such as one an immediate fill marked filled in full, is beyond backfilling at
   every later point, whatever the exchange answers, exactly when nothing revives it.
   */
  lemma FinishedForGoodIff(rows: Rows, hs: seq<Happening>, id: string)
    requires id in rows && Terminal(rows[id].state)
    ensures (forall k :: 0 <= k <= |hs| ==> NeverBackfilled(rows, hs, k, id))
       <==> (forall i :: 0 <= i < |hs| ==> !Revives(hs[i], id))
  {
    if forall i :: 0 <= i < |hs| ==> !Revives(hs[i], id) {
      forall k | 0 <= k <= |hs|
        ensures NeverBackfilled(rows, hs, k, id)
      {
        FinishedThroughout(rows, hs, id, k);
      }
    } else {
      var n := FirstRevival(hs, id);
      FinishedThroughout(rows, hs, id, n);
      var mid := Finally(rows, hs[..n]);
      FinishedStep(mid, hs[n], id);
      assert hs[..n + 1] == hs[..n] + [hs[n]] && [hs[n]][1..] == [];
      FinallyConcat(rows, hs[..n], [hs[n]]);
      assert Finally(rows, hs[..n + 1]) == Then(mid, hs[n]);
      ActiveCanBeBackfilled(Then(mid, hs[n]), id);
      assert !NeverBackfilled(rows, hs, n + 1, id);
    }
  }

  lemma {:induction false} FirstRevival(hs: seq<Happening>, id: string) returns (n: nat)
    requires exists i :: 0 <= i < |hs| && Revives(hs[i], id)
    ensures n < |hs| && Revives(hs[n], id) && forall i :: 0 <= i < n ==> !Revives(hs[i], id)
  {
    if Revives(hs[0], id) {
      n := 0;
    } else {
      var i :| 0 <= i < |hs| && Revives(hs[i], id);
      assert hs[1..][i - 1] == hs[i];
      n := FirstRevival(hs[1..], id);
      n := n + 1;
      assert forall j :: 1 <= j < n ==> hs[j] == hs[1..][j - 1];
    }
  }
}
