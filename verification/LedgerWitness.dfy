/** Short lives of one order, and what the consumer makes of them. */
module LedgerWitness {
  import opened Exchange
  import opened Sums
  import opened Tracker
  import opened Consumer
  import opened Reconcile
  import opened Ledger
  import Ids

  /** A life so far: the row, what was executed, and what was published. */
  ghost predicate Stands(show: Show, o: Order, hs: seq<Happening>, row: Row, executed: real, ms: seq<Message>) {
    && Finally(Resting(o), hs) == map[o.id := row]
    && Executed(hs, o.id) == executed
    && Messages(show, Resting(o), hs, o.id) == ms
  }

  lemma {:induction false} MessagesSnoc(show: Show, rows: Rows, hs: seq<Happening>, h: Happening, id: string)
    ensures Messages(show, rows, hs + [h], id)
         == Messages(show, rows, hs, id) + Publishes(show, Finally(rows, hs), h, id)
    decreases |hs|
  {
    hide Publishes, Then;
    if hs == [] {
      assert [] + [h] == [h] && [h][1..] == [];
      assert Messages(show, rows, [h], id) == Publishes(show, rows, h, id) + Messages(show, Then(rows, h), [], id);
    } else {
      assert (hs + [h])[1..] == hs[1..] + [h];
      MessagesSnoc(show, Then(rows, hs[0]), hs[1..], h, id);
    }
  }

  lemma {:induction false} ExecutedSnoc(hs: seq<Happening>, h: Happening, id: string)
    ensures Executed(hs + [h], id) == Executed(hs, id) + if h.Traded? && h.id == id then h.qty else 0.0
  {
    if hs == [] {
      assert [] + [h] == [h] && [h][1..] == [] && Executed([h][1..], id) == 0.0;
    } else {
      assert (hs + [h])[1..] == hs[1..] + [h];
      ExecutedSnoc(hs[1..], h, id);
    }
  }

  /** One happening more. */
  lemma Goes(show: Show, o: Order, hs: seq<Happening>, row: Row, executed: real, ms: seq<Message>,
             h: Happening, next: Row)
    requires Stands(show, o, hs, row, executed, ms) && Then(map[o.id := row], h) == map[o.id := next]
    ensures Stands(show, o, hs + [h], next, executed + (if h.Traded? && h.id == o.id then h.qty else 0.0),
                   ms + Publishes(show, map[o.id := row], h, o.id))
  {
    hide Then, Publishes;
    FinallyConcat(Resting(o), hs, [h]);
    assert [h][1..] == [] && Finally(map[o.id := row], [h]) == Finally(Then(map[o.id := row], h), []);
    MessagesSnoc(show, Resting(o), hs, h, o.id);
    ExecutedSnoc(hs, h, o.id);
  }

  lemma Begins(show: Show, o: Order)
    ensures Stands(show, o, [], Row(o, Submitted, 0.0, 0), 0.0, [])
  {}

  lemma TradeGoes(show: Show, o: Order, hs: seq<Happening>, row: Row, executed: real, ms: seq<Message>, q: real)
    requires Stands(show, o, hs, row, executed, ms)
    ensures Stands(show, o, hs + [Traded(o.id, q)], row, executed + q, ms)
  {
    Goes(show, o, hs, row, executed, ms, Traded(o.id, q), row);
    assert ms + [] == ms;
  }

  lemma StreamGoes(show: Show, o: Order, hs: seq<Happening>, row: Row, executed: real, ms: seq<Message>, f: Fill)
    requires Stands(show, o, hs, row, executed, ms) && f.orderId == o.id
    ensures Stands(show, o, hs + [Streamed(f)], row.(state := Reported(f), filledQty := f.quantity), executed,
                   ms + [Message(f.executionId, f.quantity)])
  {
    Goes(show, o, hs, row, executed, ms, Streamed(f), row.(state := Reported(f), filledQty := f.quantity));
  }

  function Answering(o: Order, executed: real, state: OrderState): View {
    map[o.id := StatusResult(state, executed, 1.0, None)]
  }

  lemma RestartGoes(show: Show, o: Order, hs: seq<Happening>, row: Row, executed: real, ms: seq<Message>,
                    to: OrderState)
    requires Stands(show, o, hs, row, executed, ms)
    ensures var h := Restarted(Answering(o, executed, to));
            var delta := if Terminal(row.state) then 0.0 else executed - row.filledQty;
            Stands(show, o, hs + [h],
                   if Terminal(row.state) then row else row.(state := to, filledQty := executed), executed,
                   ms + if delta > 0.0 then [Message(BackfillId(show, o.id, delta), delta)] else [])
  {
    hide BackfillId;
    var h := Restarted(Answering(o, executed, to));
    var next := if Terminal(row.state) then row else row.(state := to, filledQty := executed);
    Goes(show, o, hs, row, executed, ms, h, next);
    var rows: Rows := map[o.id := row];
    assert o.id in ActiveIds(rows) <==> !Terminal(row.state);
    assert ms + [] == ms;
  }

  /** Fills of an order with given quantity and status. */
  predicate Of(f: Fill, o: Order, q: real, st: OrderState) {
    f.orderId == o.id && f.quantity == q && f.status == Some(st)
  }

  /** A trade and its report, onto any life so far. */
  lemma ReportedTrade(show: Show, o: Order, hs: seq<Happening>, row: Row, executed: real, ms: seq<Message>, f: Fill)
    requires Stands(show, o, hs, row, executed, ms) && f.orderId == o.id
    ensures Stands(show, o, hs + [Traded(o.id, f.quantity), Streamed(f)],
                   row.(state := Reported(f), filledQty := f.quantity), executed + f.quantity,
                   ms + [Message(f.executionId, f.quantity)])
  {
    hide Stands;
    TradeGoes(show, o, hs, row, executed, ms, f.quantity);
    StreamGoes(show, o, hs + [Traded(o.id, f.quantity)], row, executed + f.quantity, ms, f);
    assert (hs + [Traded(o.id, f.quantity)]) + [Streamed(f)] == hs + [Traded(o.id, f.quantity), Streamed(f)];
  }

  /** Two trades, each reported on the stream. */
  lemma TwoReported(show: Show, o: Order, f: Fill, g: Fill)
    requires f.orderId == g.orderId == o.id
    ensures Stands(show, o, [Traded(o.id, f.quantity), Streamed(f), Traded(o.id, g.quantity), Streamed(g)],
                   Row(o, Reported(g), g.quantity, 0), f.quantity + g.quantity,
                   [Message(f.executionId, f.quantity), Message(g.executionId, g.quantity)])
  {
    hide Stands;
    var first, second := [Traded(o.id, f.quantity), Streamed(f)], [Traded(o.id, g.quantity), Streamed(g)];
    var m1, m2 := Message(f.executionId, f.quantity), Message(g.executionId, g.quantity);
    Begins(show, o);
    ReportedTrade(show, o, [], Row(o, Submitted, 0.0, 0), 0.0, [], f);
    assert [] + first == first && [] + [m1] == [m1];
    ReportedTrade(show, o, first, Row(o, Reported(f), f.quantity, 0), f.quantity, [m1], g);
    assert first + second == [Traded(o.id, f.quantity), Streamed(f), Traded(o.id, g.quantity), Streamed(g)];
    assert [m1] + [m2] == [m1, m2];
  }

  lemma BothHeard(a: Message, b: Message)
    requires a.executionId != b.executionId
    ensures Heard([a, b]) == a.qty + b.qty
  {
    DistinctAreHeard([a, b]);
    assert Amounts([a, b]) == [a.qty] + [b.qty];
    SumConcat([a.qty], [b.qty]);
    SumOne(a.qty);
    SumOne(b.qty);
  }

  /**
   The most ordinary life: two partial fills, the second the last.  The record is wrong and the
   consumer right, because a finished order is not reconciled.
   */
  lemma OrdinaryLifeIsRight(show: Show, o: Order, f: Fill, g: Fill)
    requires Of(f, o, 0.5, PartiallyFilled) && Of(g, o, 0.5, Filled) && f.executionId != g.executionId
    ensures var hs := [Traded(o.id, 0.5), Streamed(f), Traded(o.id, 0.5), Streamed(g),
                       Restarted(Answering(o, 1.0, Filled))];
            && Heard(Messages(show, Resting(o), hs, o.id)) == 1.0 == Executed(hs, o.id)
            && Recorded(Finally(Resting(o), hs), o.id) == 0.5
  {
    hide Stands, Messages, Executed, Finally, Heard;
    var front := [Traded(o.id, 0.5), Streamed(f), Traded(o.id, 0.5), Streamed(g)];
    var last := Restarted(Answering(o, 1.0, Filled));
    var row, ms := Row(o, Filled, 0.5, 0), [Message(f.executionId, 0.5), Message(g.executionId, 0.5)];
    TwoReported(show, o, f, g);
    RestartGoes(show, o, front, row, 1.0, ms, Filled);
    assert front + [last] == [Traded(o.id, 0.5), Streamed(f), Traded(o.id, 0.5), Streamed(g), last];
    assert ms + [] == ms;
    Concludes(show, o, front + [last], row, 1.0, ms);
    BothHeard(ms[0], ms[1]);
  }

  lemma Concludes(show: Show, o: Order, hs: seq<Happening>, row: Row, executed: real, ms: seq<Message>)
    requires Stands(show, o, hs, row, executed, ms)
    ensures Executed(hs, o.id) == executed && Messages(show, Resting(o), hs, o.id) == ms
    ensures Recorded(Finally(Resting(o), hs), o.id) == row.filledQty
  {}

  /** Two partial fills streamed, neither the last, then a restart: the first is backfilled again. */
  lemma StreamedTwiceThenRestarted(show: Show, o: Order, f: Fill, g: Fill)
    requires Of(f, o, 1.0, PartiallyFilled) && Of(g, o, 1.0, PartiallyFilled)
    ensures var trade := Traded(o.id, 1.0);
            Stands(show, o,
                   [trade, Streamed(f), trade, Streamed(g), Restarted(Answering(o, 2.0, PartiallyFilled))],
                   Row(o, PartiallyFilled, 2.0, 0), 2.0,
                   [Message(f.executionId, 1.0), Message(g.executionId, 1.0),
                    Message(BackfillId(show, o.id, 1.0), 1.0)])
  {
    hide Stands, BackfillId;
    var front := [Traded(o.id, 1.0), Streamed(f), Traded(o.id, 1.0), Streamed(g)];
    var last := Restarted(Answering(o, 2.0, PartiallyFilled));
    var m1, m2 := Message(f.executionId, 1.0), Message(g.executionId, 1.0);
    var d := Message(BackfillId(show, o.id, 1.0), 1.0);
    TwoReported(show, o, f, g);
    RestartGoes(show, o, front, Row(o, PartiallyFilled, 1.0, 0), 2.0, [m1, m2], PartiallyFilled);
    assert front + [last] == [Traded(o.id, 1.0), Streamed(f), Traded(o.id, 1.0), Streamed(g), last];
    assert [m1, m2] + [d] == [m1, m2, d];
  }

  /**
   Two wrongs: a restart backfills a fill that had been streamed, and a later one a missed trade of
   the same amount, which the consumer drops as a repeat.  The total comes out right.
   */
  lemma ErrorsCanCancel(show: Show, o: Order, f: Fill, g: Fill)
    requires Of(f, o, 1.0, PartiallyFilled) && Of(g, o, 1.0, PartiallyFilled) && f.executionId != g.executionId
    requires BackfillId(show, o.id, 1.0) != f.executionId && BackfillId(show, o.id, 1.0) != g.executionId
    ensures var hs := [Traded(o.id, 1.0), Streamed(f), Traded(o.id, 1.0), Streamed(g),
                       Restarted(Answering(o, 2.0, PartiallyFilled)), Traded(o.id, 1.0),
                       Restarted(Answering(o, 3.0, Filled))];
            && Heard(Messages(show, Resting(o), hs, o.id)) == 3.0 == Executed(hs, o.id)
            && TotalExcess(Resting(o), hs, o.id) == 1.0 == Dropped(Messages(show, Resting(o), hs, o.id))
  {
    hide Stands, BackfillId, TotalExcess, Messages, Executed, Finally, Sum;
    var h1, h5 := Traded(o.id, 1.0), Restarted(Answering(o, 2.0, PartiallyFilled));
    var front := [h1, Streamed(f), h1, Streamed(g), h5];
    var h7 := Restarted(Answering(o, 3.0, Filled));
    var r2 := Row(o, PartiallyFilled, 2.0, 0);
    var m1, m2 := Message(f.executionId, 1.0), Message(g.executionId, 1.0);
    var d := Message(BackfillId(show, o.id, 1.0), 1.0);
    StreamedTwiceThenRestarted(show, o, f, g);
    TradeGoes(show, o, front, r2, 2.0, [m1, m2, d], 1.0);
    RestartGoes(show, o, front + [h1], r2, 3.0, [m1, m2, d], Filled);
    var hs := [h1, Streamed(f), h1, Streamed(g), h5, h1, h7];
    assert (front + [h1]) + [h7] == hs && [m1, m2, d] + [d] == [m1, m2, d, d];
    Concludes(show, o, hs, Row(o, Filled, 3.0, 0), 3.0, [m1, m2, d, d]);
    ThreeHeardOneDropped(m1, m2, d);
    PublishedBalance(show, Resting(o), hs, o.id);
    HeardPlusDropped([m1, m2, d, d]);
  }

  lemma ThreeHeardOneDropped(a: Message, b: Message, d: Message)
    requires a.qty == b.qty == d.qty == 1.0 && DistinctIds([a, b, d])
    ensures Heard([a, b, d, d]) == 3.0 && Dropped([a, b, d, d]) == 1.0
  {
    var ms := [a, b, d, d];
    assert ms[..3] == [a, b, d] && ms[2] == ms[3];
    assert Repeats(ms);
    DistinctAreHeard([a, b, d]);
    assert Amounts([a, b, d]) == ([1.0] + [1.0]) + [1.0];
    SumConcat([1.0] + [1.0], [1.0]);
    SumConcat([1.0], [1.0]);
    SumOne(1.0);
  }

  /** A trade that comes back with the submission marks the order filled in full. */
  lemma AnswerGoes(show: Show, o: Order, f: Fill)
    requires f.orderId == o.id
    ensures Stands(show, o, [Traded(o.id, f.quantity), Answered(f, Some(o.quantity))],
                   Row(o, Filled, o.quantity, 0), f.quantity, [Message(f.executionId, f.quantity)])
  {
    hide Stands;
    var q := f.quantity;
    var h1, h2 := Traded(o.id, q), Answered(f, Some(o.quantity));
    var r0, r1 := Row(o, Submitted, 0.0, 0), Row(o, Filled, o.quantity, 0);
    Begins(show, o);
    TradeGoes(show, o, [], r0, 0.0, [], q);
    assert [] + [h1] == [h1] && [] + [Message(f.executionId, q)] == [Message(f.executionId, q)];
    Goes(show, o, [h1], r0, q, [], h2, r1);
    assert [h1] + [h2] == [h1, h2];
  }

  /** A trade reported both in the answer and on the stream counts twice: REST and stream IDs never coincide. */
  lemma AnsweredAndStreamedCountsTwice(show: Show, o: Order, f: Fill, g: Fill, n: int, t: int)
    requires f.orderId == g.orderId == o.id && g.quantity == f.quantity
    requires f.executionId == Ids.Render(Ids.Rest(o.id, n)) && g.executionId == Ids.Render(Ids.WsTrade(o.id, t))
    ensures var hs := [Traded(o.id, f.quantity), Answered(f, Some(o.quantity)), Streamed(g)];
            Executed(hs, o.id) == f.quantity && Heard(Messages(show, Resting(o), hs, o.id)) == 2.0 * f.quantity
  {
    hide Stands, Ids.Render, Messages, Executed, Heard;
    var q := f.quantity;
    var front := [Traded(o.id, q), Answered(f, Some(o.quantity))];
    var m1, m2 := Message(f.executionId, q), Message(g.executionId, q);
    AnswerGoes(show, o, f);
    StreamGoes(show, o, front, Row(o, Filled, o.quantity, 0), q, [m1], g);
    assert front + [Streamed(g)] == [Traded(o.id, q), Answered(f, Some(o.quantity)), Streamed(g)];
    assert [m1] + [m2] == [m1, m2];
    Concludes(show, o, front + [Streamed(g)], Row(o, Reported(g), q, 0), q, [m1, m2]);
    if f.executionId == g.executionId {
      Ids.ExecutionIdsCollisionFree(Ids.Rest(o.id, n), Ids.WsTrade(o.id, t));
    }
    BothHeard(m1, m2);
  }

  /**
   An immediate fill of part of an order marks it filled in full: what is traded afterwards and
   missed is backfilled by no restart.
   */
  lemma PartialImmediateFillLosesTheRest(show: Show, o: Order, f: Fill, rest: real, to: OrderState)
    requires f.orderId == o.id && rest > 0.0
    ensures var hs := [Traded(o.id, f.quantity), Answered(f, Some(o.quantity)), Traded(o.id, rest),
                       Restarted(Answering(o, f.quantity + rest, to))];
            && Executed(hs, o.id) == f.quantity + rest && Heard(Messages(show, Resting(o), hs, o.id)) == f.quantity
            && Recorded(Finally(Resting(o), hs), o.id) == o.quantity
  {
    hide Stands, Messages, Executed, Finally;
    var q := f.quantity;
    var front := [Traded(o.id, q), Answered(f, Some(o.quantity))];
    var h3, h4 := Traded(o.id, rest), Restarted(Answering(o, q + rest, to));
    var row, m := Row(o, Filled, o.quantity, 0), Message(f.executionId, q);
    AnswerGoes(show, o, f);
    TradeGoes(show, o, front, row, q, [m], rest);
    RestartGoes(show, o, front + [h3], row, q + rest, [m], to);
    assert (front + [h3]) + [h4] == [Traded(o.id, q), Answered(f, Some(o.quantity)), h3, h4] && [m] + [] == [m];
    Concludes(show, o, (front + [h3]) + [h4], row, q + rest, [m]);
    DistinctAreHeard([m]);
    assert Amounts([m]) == [q];
    SumOne(q);
  }
}
