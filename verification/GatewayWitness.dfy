/** A run from an empty boot up to the exchange, for the lemmas that show a concrete run. */
module GatewayWitness {
  import opened Exchange
  import opened Tracker
  import opened Gateway
  import Limiter
  import Risk
  import Algo

  const Proceed := Work(None, true, false)

  /** No policy, ten orders a day, five calls a second. */
  function Lenient(algo: Option<Algo.Config>): Config {
    Config(None, 10, 0, 0, 5.0, 3, algo)
  }

  function Empty(c: Config): State {
    Gateway.Boot(c, Book(EMPTY, map[]), 0)
  }

  /** Fetch an order and pass every check. */
  function ToLimiter(o: Order): seq<Label> {
    [Proceed, Deliver(o), Proceed, Proceed, Proceed, Proceed, Proceed]
  }

  function AtLimiter(c: Config, o: Order): State {
    Empty(c).(inbox := [o], pc := Busy(o, Waiting(0, 0)), log := [Entry(Delivery(1), 0, Fetched(o))])
  }

  lemma ReachLimiter(c: Config, o: Order)
    requires Usable(c) && c == Lenient(c.algo) && Risk.ValidateOrderId(o.id).None?
    ensures Run(c, Empty(c), ToLimiter(o)) == AtLimiter(c, o)
  {
    hide Run, Risk.ValidateOrderId, Admit, Submit, Record, Settle, StreamStep;
    var s0, s1 := Empty(c), AtLimiter(c, o);
    assert CreatedSince(map[], 0, None) == {};
    var path := [s0, s0.(pc := Fetching), Goto(s1, o, AtHalt), Goto(s1, o, AtId), Goto(s1, o, AtDup),
                 Goto(s1, o, AtRisk), Goto(s1, o, AtSide(0)), s1];
    Walk(c, path, ToLimiter(o));
  }

  /** Take a token, and add the order. */
  function ToExchange(o: Order): seq<Label> {
    ToLimiter(o) + [Proceed, Proceed, Proceed]
  }

  function AtExchange(c: Config, o: Order): State {
    var s := AtLimiter(c, o);
    s.(bucket := Limiter.Take(s.bucket, 0), checks := s.checks + [Limiter.Check(0, true)],
       mem := AddMem(EMPTY, o, Pending), rows := SaveRow(map[], o, Pending, 0), pc := Busy(o, Sending([], 0)),
       log := s.log + [Entry(Delivery(1), 0, Granted), Entry(Delivery(1), 0, Admitted(o))])
  }

  lemma ReachExchange(c: Config, o: Order)
    requires Usable(c) && c == Lenient(c.algo) && Risk.ValidateOrderId(o.id).None?
    ensures Run(c, Empty(c), ToExchange(o)) == AtExchange(c, o)
  {
    hide Run, Risk.ValidateOrderId, Vet, Submit, Record, Settle, StreamStep;
    var s := AtLimiter(c, o);
    ReachLimiter(c, o);
    var s1 := Next(c, s, Proceed);
    var s2 := Next(c, s1, Proceed);
    assert Limiter.Grants(s.bucket, 0);
    Walk(c, [s, s1, s2, Next(c, s2, Proceed)], [Proceed, Proceed, Proceed]);
    RunSplits(c, Empty(c), ToLimiter(o), [Proceed, Proceed, Proceed]);
  }

  // ------------------------------------------------- a direct order, filled at once

  /** The order is added, and memory and table know it as pending. */
  lemma AtExchangeIs(c: Config, o: Order)
    ensures var s := AtExchange(c, o);
            && s.pc == Busy(o, Sending([], 0)) && s.inbox == [o] && s.stream.Idle? && s.intake && s.alive
            && s.mem == Memory(map[o.id := o], map[o.id := Pending])
            && s.rows == map[o.id := Row(o, Pending, 0.0, 0)]
            && |s.log| == 3 && (forall i :: 0 <= i < 3 ==> s.log[i].who == Delivery(1))
            && s.log[0].ev == Fetched(o) && s.log[1].ev == Granted && s.log[2].ev == Admitted(o)
  {}

  /** The one call, answered, and the answer accepted. */
  lemma Answered(c: Config, s: State, o: Order, f: Fill)
    requires Usable(c) && c.algo.None? && s.pc == Busy(o, Sending([], 0))
    ensures var a := Attempt(0, o, Some(f));
            var s1 := Goto(Emit(s, Sent(o.id, a)), o, Sending([a], 1));
            && Next(c, s, Work(Some(f), true, false)) == s1
            && Next(c, s1, Proceed) == Goto(Emit(s1, Accepted(Some(f))), o, AcceptMem([a], Some(f)))
  {
    hide Vet, Admit, Record, Settle, StreamStep, Emit;
    var a := Attempt(0, o, Some(f));
    assert [] + [a] == [a] && [a][..0] == [];
    assert Answers([a]) == [] + [f] == [f];
  }

  /** A state-only update by the worker: memory, then the table. */
  lemma Records(c: Config, s: State, o: Order, tried: seq<Attempt>, f: Fill, to: OrderState)
    requires Usable(c) && f.orderId == o.id && f.quantity > 0.0 && s.pc.Busy? && s.pc.o == o
    requires s.pc.stage == if to == Submitted then AcceptMem(tried, Some(f)) else FillMem(tried, f)
    requires (to == Submitted || to == Filled) && Changes(s.mem, o.id, to)
    ensures Next(c, Next(c, s, Proceed), Proceed) == Recorded(s, o, tried, f, to)
  {
    hide Vet, Admit, Submit, Settle, StreamStep, StateOnlyQty, UpdateRow, SetMem;
  }

  function Recorded(s: State, o: Order, tried: seq<Attempt>, f: Fill, to: OrderState): State {
    var qty := StateOnlyQty(s.mem, s.rows, o.id, to);
    Goto(s.(mem := SetMem(s.mem, o.id, to), rows := UpdateRow(s.rows, o.id, to, qty)), o,
         if to == Submitted then FillMem(tried, f) else Publishing(tried, f, 0))
  }

  /** Submit, record, and stand before the publish. */
  function ToPublish(o: Order, f: Fill): seq<Label> {
    ToExchange(o) + [Work(Some(f), true, false), Proceed, Proceed, Proceed, Proceed, Proceed]
  }

  ghost predicate AtPublish(s: State, o: Order, f: Fill) {
    && s.pc == Busy(o, Publishing([Attempt(0, o, Some(f))], f, 0)) && s.inbox == [o]
    && s.mem == Memory(map[o.id := o], map[o.id := Filled]) && s.rows == map[o.id := Row(o, Filled, o.quantity, 0)]
    && s.stream.Idle? && s.intake && s.alive
    && |s.log| == 5 && s.log[3].ev == Sent(o.id, Attempt(0, o, Some(f)))
    && (forall i :: 0 <= i < 5 ==> !s.log[i].ev.Published?)
  }

  /** What the two updates make of a pending order. */
  lemma FilledBook(b: Book, o: Order)
    requires b == Book(Memory(map[o.id := o], map[o.id := Pending]), map[o.id := Row(o, Pending, 0.0, 0)])
    ensures var qty := StateOnlyQty(b.mem, b.rows, o.id, Submitted);
            var m, rows := SetMem(b.mem, o.id, Submitted), UpdateRow(b.rows, o.id, Submitted, qty);
            && Changes(b.mem, o.id, Submitted) && Changes(m, o.id, Filled)
            && SetMem(m, o.id, Filled) == Memory(map[o.id := o], map[o.id := Filled])
            && UpdateRow(rows, o.id, Filled, StateOnlyQty(m, rows, o.id, Filled))
            == map[o.id := Row(o, Filled, o.quantity, 0)]
  {
    assert o.id in ActiveIds(b.rows);
  }

  /** From acceptance on. */
  lemma PublishFollows(c: Config, s: State, o: Order, f: Fill)
    requires Usable(c) && f.orderId == o.id && f.quantity > 0.0
    requires s.pc == Busy(o, AcceptMem([Attempt(0, o, Some(f))], Some(f)))
    requires s.mem == Memory(map[o.id := o], map[o.id := Pending]) && s.rows == map[o.id := Row(o, Pending, 0.0, 0)]
    ensures var tried := [Attempt(0, o, Some(f))];
            var s' := Run(c, s, [Proceed, Proceed, Proceed, Proceed]);
            && s' == Recorded(Recorded(s, o, tried, f, Submitted), o, tried, f, Filled)
            && s'.mem == Memory(map[o.id := o], map[o.id := Filled])
            && s'.rows == map[o.id := Row(o, Filled, o.quantity, 0)]
  {
    hide Run, Next, StateOnlyQty, UpdateRow, SetMem;
    var tried := [Attempt(0, o, Some(f))];
    FilledBook(Book(s.mem, s.rows), o);
    Records(c, s, o, tried, f, Submitted);
    var s2 := Recorded(s, o, tried, f, Submitted);
    Records(c, s2, o, tried, f, Filled);
    Walk(c, [s, Next(c, s, Proceed), s2, Next(c, s2, Proceed), Recorded(s2, o, tried, f, Filled)],
         [Proceed, Proceed, Proceed, Proceed]);
  }

  /** The call and its acceptance, as a run. */
  lemma AnsweredRun(c: Config, o: Order, f: Fill)
    requires c == Lenient(None)
    ensures var a := Attempt(0, o, Some(f));
            var s1 := Goto(Emit(AtExchange(c, o), Sent(o.id, a)), o, Sending([a], 1));
            Run(c, AtExchange(c, o), [Work(Some(f), true, false), Proceed])
            == Goto(Emit(s1, Accepted(Some(f))), o, AcceptMem([a], Some(f)))
  {
    hide Run, Next, AtExchange, Emit;
    var s0 := AtExchange(c, o);
    AtExchangeIs(c, o);
    Answered(c, s0, o, f);
    var s1 := Next(c, s0, Work(Some(f), true, false));
    Walk(c, [s0, s1, Next(c, s1, Proceed)], [Work(Some(f), true, false), Proceed]);
  }

  lemma ReachPublish(o: Order, f: Fill)
    requires Risk.ValidateOrderId(o.id).None? && f.orderId == o.id && f.quantity > 0.0
    ensures AtPublish(Run(Lenient(None), Empty(Lenient(None)), ToPublish(o, f)), o, f)
  {
    hide Run, Next, AtExchange, Risk.ValidateOrderId, StateOnlyQty, UpdateRow, SetMem;
    var c := Lenient(None);
    var call, rest := [Work(Some(f), true, false), Proceed], [Proceed, Proceed, Proceed, Proceed];
    ReachExchange(c, o);
    assert ToPublish(o, f) == (ToExchange(o) + call) + rest;
    RunSplits(c, Empty(c), ToExchange(o), call);
    RunSplits(c, Empty(c), ToExchange(o) + call, rest);
    AtExchangeIs(c, o);
    AnsweredRun(c, o, f);
    PublishFollows(c, Run(c, AtExchange(c, o), call), o, f);
  }
}
