/** At most once across restarts: what a later process may submit again. */
module GatewayLives {
  import opened Exchange
  import opened Tracker
  import opened Gateway
  import opened GatewayFlow
  import opened GatewayOnce
  import opened GatewayDrain
  import opened GatewayWitness
  import GatewayCaps
  import GatewayLoops
  import GatewayTrace
  import Limiter
  import Reconcile
  import Risk
  import Ids

  /** One process: its settings, what the exchange answered at its boot, when, and what then happened. */
  datatype Life = Life(c: Config, view: Reconcile.View, now: int, ls: seq<Label>)

  ghost predicate AllUsable(lives: seq<Life>) {
    forall i :: 0 <= i < |lives| ==> Usable(lives[i].c)
  }

  function Born(life: Life, rows: Rows): State {
    Gateway.Boot(life.c, Reconcile.Prepared(rows, life.view), life.now)
  }

  /** A process ends wherever its labels do; only the table outlives it. */
  function Lived(life: Life, rows: Rows): State
    requires Usable(life.c)
  {
    Run(life.c, Born(life, rows), life.ls)
  }

  /** The table after the first `n` processes. */
  function TableAfter(rows: Rows, lives: seq<Life>, n: nat): Rows
    requires n <= |lives| && AllUsable(lives)
  {
    if n == 0 then rows else Lived(lives[n - 1], TableAfter(rows, lives, n - 1)).rows
  }

  function LogOf(rows: Rows, lives: seq<Life>, i: nat): seq<Entry>
    requires i < |lives| && AllUsable(lives)
  {
    Lived(lives[i], TableAfter(rows, lives, i)).log
  }

  // ------------------------------------------------------------------ within one life

  /** An order admitted in this life was not known to the tracker it began with. */
  ghost predicate NewHere(known: set<string>, s: State) {
    && known <= s.mem.states.Keys && (s.pc.Busy? ==> s.inbox != [])
    && (s.pc.Busy? && Cleared(s.pc.stage) ==> s.pc.o.id !in known)
    && (forall id :: id in AdmittedIds(s.log) ==> id !in known)
  }

  lemma NewHereStep(c: Config, known: set<string>, s: State, l: Label)
    requires Usable(c) && NewHere(known, s)
    ensures NewHere(known, Next(c, s, l)) && s.rows.Keys <= Next(c, s, l).rows.Keys
  {
    hide Next, Plan, Logged, AdmittedIds, Looks;
    StepFlows(c, s, l);
    StepEffect(c, s, l);
    var s' := Next(c, s, l);
    if s'.log != s.log {
      var e := Append(c, s, s');
    }
  }

  lemma {:induction false} NewHereAlways(c: Config, known: set<string>, s: State, ls: seq<Label>)
    requires Usable(c) && NewHere(known, s)
    ensures NewHere(known, Run(c, s, ls)) && s.rows.Keys <= Run(c, s, ls).rows.Keys
    decreases |ls|
  {
    hide Next, NewHere;
    if ls != [] {
      NewHereStep(c, known, s, ls[0]);
      NewHereAlways(c, known, Next(c, s, ls[0]), ls[1..]);
    }
  }

  /** What one life says of an order it sent: it has a row, and no active row before. */
  lemma SentInLife(life: Life, rows: Rows, i: nat)
    requires Usable(life.c)
    requires var log := Lived(life, rows).log; i < |log| && log[i].ev.Sent?
    ensures var s := Lived(life, rows);
            var ev := s.log[i].ev;
            && ev.parent in s.rows && ev.parent !in ActiveIds(rows)
            && ev.attempt.child.id == ChildId(life.c, ev.parent, ev.attempt.index)
  {
    hide Run, AdmittedIds, GatewayCaps.CapStage, GatewayCaps.WithinDaily;
    var c, s0 := life.c, Born(life, rows);
    var s := Lived(life, rows);
    BootIsNew(life, rows);
    NewHereAlways(c, ActiveIds(rows), s0, life.ls);
    BootIsOnce(life, rows);
    OnceAlways(c, s0, life.ls);
    GatewayCaps.BootCapped(c, Reconcile.Prepared(rows, life.view), life.now);
    GatewayCaps.CappedAlways(c, s0.rows.Keys, s0, life.ls);
    assert CallOk(c, AdmittedIds(s.log), s.log[i].ev);
  }

  lemma BootIsNew(life: Life, rows: Rows)
    ensures NewHere(ActiveIds(rows), Born(life, rows))
  {}

  lemma BootIsOnce(life: Life, rows: Rows)
    ensures Once(life.c, Born(life, rows))
  {}

  lemma RowsPersist(life: Life, rows: Rows)
    requires Usable(life.c)
    ensures rows.Keys <= Lived(life, rows).rows.Keys
  {
    hide Run;
    BootIsNew(life, rows);
    NewHereAlways(life.c, ActiveIds(rows), Born(life, rows), life.ls);
  }

  // ------------------------------------------------------------------- over all lives

  lemma {:induction false} TableGrows(rows: Rows, lives: seq<Life>, i: nat, j: nat)
    requires i <= j <= |lives| && AllUsable(lives)
    ensures TableAfter(rows, lives, i).Keys <= TableAfter(rows, lives, j).Keys
  {
    hide Lived;
    if i < j {
      TableGrows(rows, lives, i, j - 1);
      RowsPersist(lives[j - 1], TableAfter(rows, lives, j - 1));
    }
  }

  /**
   Over any sequence of processes on one table: if an order was submitted in an earlier process and
   again in a later one, its row was finished in the table the later one booted from.
   */
  lemma ResubmittedOnlyIfFinished(rows: Rows, lives: seq<Life>, i: nat, m: nat, j: nat, n: nat)
    requires i < j < |lives| && AllUsable(lives)
    requires m < |LogOf(rows, lives, i)| && LogOf(rows, lives, i)[m].ev.Sent?
    requires n < |LogOf(rows, lives, j)| && LogOf(rows, lives, j)[n].ev.Sent?
    requires LogOf(rows, lives, i)[m].ev.parent == LogOf(rows, lives, j)[n].ev.parent
    ensures var id, table := LogOf(rows, lives, j)[n].ev.parent, TableAfter(rows, lives, j);
            id in table && Terminal(table[id].state)
  {
    hide Lived;
    SentInLife(lives[i], TableAfter(rows, lives, i), m);
    SentInLife(lives[j], TableAfter(rows, lives, j), n);
    TableGrows(rows, lives, i + 1, j);
  }

  /** One of two calls is a slice's, the other's order has the slice's ID for its own. */
  predicate NamedAfterSlice(c: Config, a: Event, d: Config, b: Event)
    requires a.Sent? && b.Sent?
  {
    || (c.algo.Some? && d.algo.None? && b.parent == Ids.SliceId(a.parent, a.attempt.index))
    || (c.algo.None? && d.algo.Some? && a.parent == Ids.SliceId(b.parent, b.attempt.index))
  }

  /** The same order, whole or the same slice of it. */
  predicate SamePiece(c: Config, a: Event, d: Config, b: Event)
    requires a.Sent? && b.Sent?
  {
    && a.parent == b.parent && (c.algo.None? <==> d.algo.None?)
    && (c.algo.None? || a.attempt.index == b.attempt.index)
  }

  /**
   A client order ID is sent by two processes exactly when they send the same order, or the same slice
   of it, whose row was then finished, or one slices and the other sends an order named after the slice.
   */
  lemma SameClientIdIff(rows: Rows, lives: seq<Life>, i: nat, m: nat, j: nat, n: nat)
    requires i < j < |lives| && AllUsable(lives)
    requires m < |LogOf(rows, lives, i)| && LogOf(rows, lives, i)[m].ev.Sent?
    requires n < |LogOf(rows, lives, j)| && LogOf(rows, lives, j)[n].ev.Sent?
    ensures var a, b, c, d := LogOf(rows, lives, i)[m].ev, LogOf(rows, lives, j)[n].ev, lives[i].c, lives[j].c;
            var id, table := b.parent, TableAfter(rows, lives, j);
            && (a.attempt.child.id == b.attempt.child.id <==> NamedAfterSlice(c, a, d, b) || SamePiece(c, a, d, b))
            && (SamePiece(c, a, d, b) ==> id in table && Terminal(table[id].state))
  {
    hide Lived, Ids.SliceId;
    SentInLife(lives[i], TableAfter(rows, lives, i), m);
    SentInLife(lives[j], TableAfter(rows, lives, j), n);
    var a, b := LogOf(rows, lives, i)[m].ev, LogOf(rows, lives, j)[n].ev;
    if lives[i].c.algo.Some? && lives[j].c.algo.Some? && a.attempt.child.id == b.attempt.child.id {
      Ids.SliceIdInjective(a.parent, a.attempt.index, b.parent, b.attempt.index);
    }
    if a.parent == b.parent {
      ResubmittedOnlyIfFinished(rows, lives, i, m, j, n);
    }
  }

  // --------------------------------------------------------- what a process can send

  /** Some order of this ID passes every check and has something to send. */
  ghost predicate Sendable(c: Config, id: string)
    requires Usable(c)
  {
    exists o: Order :: o.id == id && Worthy(c, o)
  }

  ghost predicate Worthy(c: Config, o: Order)
    requires Usable(c)
  {
    Risk.ValidateOrderId(o.id).None? && Clears(c, o) && WantedFrom(c, o, 0)
  }

  /** The worker's stage speaks for its order, and every call made for its parent. */
  ghost predicate Credible(c: Config, s: State)
    requires Usable(c)
  {
    && s.bucket.rps == c.rps && (s.pc.Busy? ==> s.inbox != [])
    && (s.pc.Busy? ==>
          var o, st := s.pc.o, s.pc.stage;
          && (st.AtDup? || Cleared(st) || st.AdmitRow? || st.Sending? ==> Risk.ValidateOrderId(o.id).None?)
          && (st.AtSide? || st.Waiting? || st.AdmitMem? || st.AdmitRow? || st.Sending? ==>
                Risk.CheckIntent(c.policy, o).None? && c.maxDaily >= 1)
          && (st.AdmitMem? || st.AdmitRow? || st.Sending? ==> c.rps >= 1.0))
    && (forall i :: 0 <= i < |s.log| && s.log[i].ev.Sent? ==> Sendable(c, s.log[i].ev.parent))
  }

  lemma CredibleStep(c: Config, s: State, l: Label)
    requires Usable(c) && Credible(c, s)
    ensures Credible(c, Next(c, s, l))
  {
    hide Next, Plan, Logged, Full, Because, WorkerMoves, StreamMoves, CacheOf, Sendable, AdmittedIds;
    hide Limiter.Grants, Limiter.Take, Risk.CheckIntent, Risk.ValidateOrderId;
    StepFlows(c, s, l);
    StepEffect(c, s, l);
    NothingForNothing(c, s);
    var s' := Next(c, s, l);
    if s'.log != s.log {
      var e := Append(c, s, s');
      if e.ev.Sent? {
        CallIsWorthy(c, s.pc.o, s.pc.stage.next);
      }
    }
  }

  lemma CallIsWorthy(c: Config, o: Order, i: nat)
    requires Usable(c) && Risk.ValidateOrderId(o.id).None? && Clears(c, o)
    requires Plan(c, o).Some? && i < |Plan(c, o).value| && (c.algo.Some? ==> Plan(c, o).value[i].quantity > 0.0)
    ensures Sendable(c, o.id)
  {
    hide Plan, Clears, Risk.ValidateOrderId;
    assert GatewayTrace.Wanted(c, Plan(c, o).value[i]);
    assert Worthy(c, o);
  }

  lemma {:induction false} CredibleAlways(c: Config, s: State, ls: seq<Label>)
    requires Usable(c) && Credible(c, s)
    ensures Credible(c, Run(c, s, ls))
    decreases |ls|
  {
    hide Next, Credible;
    if ls != [] {
      CredibleStep(c, s, ls[0]);
      CredibleAlways(c, Next(c, s, ls[0]), ls[1..]);
    }
  }

  /**
   Over any table a process can send an order exactly when the table does not hold its ID as active,
   and some order of that ID passes every check.  So an order sent before can be sent again
   exactly when its row is finished.
   */
  lemma ProcessCanSendIff(c: Config, view: Reconcile.View, now: int, rows: Rows, id: string)
    requires Usable(c)
    ensures GoesOut(c, Born(Life(c, view, now, []), rows), SendOf(id))
       <==> id !in ActiveIds(rows) && Sendable(c, id)
  {
    hide Sendable, Speaks;
    var s := Born(Life(c, view, now, []), rows);
    if GoesOut(c, s, SendOf(id)) {
      var ls :| Speaks(c, s, ls, SendOf(id));
      SpokenIsSent(c, view, now, rows, id, ls);
    }
    if id !in ActiveIds(rows) && Sendable(c, id) {
      FinishedIsSent(c, view, now, rows, id);
    }
  }

  lemma SpokenIsSent(c: Config, view: Reconcile.View, now: int, rows: Rows, id: string, ls: seq<Label>)
    requires Usable(c) && Speaks(c, Born(Life(c, view, now, []), rows), ls, SendOf(id))
    ensures id !in ActiveIds(rows) && Sendable(c, id)
  {
    hide Run, Sendable;
    var life := Life(c, view, now, ls);
    var s := Born(life, rows);
    var log := Lived(life, rows).log;
    var i :| 0 <= i < |log| && Meets(log[i].ev, SendOf(id));
    SentInLife(life, rows, i);
    CredibleAlways(c, s, ls);
  }

  lemma FinishedIsSent(c: Config, view: Reconcile.View, now: int, rows: Rows, id: string)
    requires Usable(c) && id !in ActiveIds(rows) && Sendable(c, id)
    ensures GoesOut(c, Born(Life(c, view, now, []), rows), SendOf(id))
  {
    hide GoesOut, WantedFrom, Clears, Risk.ValidateOrderId;
    var o: Order :| o.id == id && Worthy(c, o);
    FetchedIsSent(c, Born(Life(c, view, now, []), rows), o);
  }

  // -------------------------------------------------------------------- a witness

  /** Four refusals by the broker, and the fill is given up on. */
  function Refusing(): GatewayLoops.Weather {
    GatewayLoops.Weather([false, false, false, false], [false, false, false, false])
  }

  /** The first process: submit, record as filled, fail to publish, and leave the intent uncommitted. */
  function FirstLife(o: Order, f: Fill): Life {
    Life(Lenient(None), map[], 0, ToPublish(o, f) + GatewayLoops.Script(Refusing(), 3, 0))
  }

  lemma FirstLifeGivesUp(o: Order, f: Fill)
    requires Risk.ValidateOrderId(o.id).None? && f.orderId == o.id && f.quantity > 0.0
    ensures var s := Lived(FirstLife(o, f), map[]);
            && s.rows == map[o.id := Row(o, Filled, o.quantity, 0)]
            && |s.log| > 3 && s.log[3].ev == Sent(o.id, Attempt(0, o, Some(f)))
            && s.log[|s.log| - 1].ev == GaveUp
  {
    hide Run, GatewayLoops.Script, Risk.ValidateOrderId;
    var c, w := Lenient(None), Refusing();
    assert Born(FirstLife(o, f), map[]) == Empty(c) by {
      NothingPrepared();
    }
    ReachPublish(o, f);
    var s := Run(c, Empty(c), ToPublish(o, f));
    RunSplits(c, Empty(c), ToPublish(o, f), GatewayLoops.Script(w, 3, 0));
    var tried := [Attempt(0, o, Some(f))];
    GatewayLoops.PublishLoopIsTheTransitions(c, s, o, tried, f, w, 0, GatewayLoops.Exhausted, 4);
  }

  lemma NothingPrepared()
    ensures Reconcile.Prepared(map[], map[]) == Book(EMPTY, map[])
  {
    var b := Reconcile.Prepared(map[], map[]);
    assert b.mem.orders == map[] && b.mem.states == map[] && b.rows == map[];
  }

  /**
   It happens: the first process submits an order, marks it filled, gives up on publishing the fill
   and leaves the intent uncommitted; redelivered to the next process, it can be submitted again.
   */
  lemma GivenUpIsSubmittedAgain(o: Order, f: Fill, view: Reconcile.View, now: int)
    requires Risk.ValidateOrderId(o.id).None? && f.orderId == o.id && f.quantity > 0.0
    ensures var table := Lived(FirstLife(o, f), map[]).rows;
            GoesOut(Lenient(None), Born(Life(Lenient(None), view, now, []), table), SendOf(o.id))
  {
    hide Lived, Risk.ValidateOrderId;
    var c := Lenient(None);
    FirstLifeGivesUp(o, f);
    assert GatewayTrace.Wanted(c, Plan(c, o).value[0]);
    assert Worthy(c, o);
    ProcessCanSendIff(c, view, now, Lived(FirstLife(o, f), map[]).rows, o.id);
  }
}
