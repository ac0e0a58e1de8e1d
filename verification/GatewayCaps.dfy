/** Daily caps and per-instrument limits over whole runs. */
module GatewayCaps {
  import opened Exchange
  import opened Tracker
  import opened Gateway
  import opened GatewayFlow
  import opened GatewayOnce
  import Risk
  import Algo
  import Sums
  import Ids
  import Text

  // ------------------------------------------------------- what a step does to the table

  /** The same rows, created when and as they were; states and quantities may differ. */
  ghost predicate SameBirth(a: Rows, b: Rows) {
    a.Keys == b.Keys && forall id :: id in a ==> a[id].createdAt == b[id].createdAt && a[id].order == b[id].order
  }

  /** The step writes the current order's row. */
  ghost predicate Saves(s: State, s': State) {
    && s.pc.Busy? && (s.pc.stage.AdmitRow? || s.pc.stage.RejectRow?)
    && s'.log == s.log && s'.now == s.now && s'.mem == s.mem
    && s'.pc.Busy? && !Cleared(s'.pc.stage) && !s'.pc.stage.AdmitRow? && !s'.pc.stage.RejectRow?
    && exists st :: s'.rows == SaveRow(s.rows, s.pc.o, st, s.now)
  }

  ghost predicate RowFlow(s: State, s': State) {
    && (SameBirth(s.rows, s'.rows) || Saves(s, s'))
    && (s.pc.Busy? && s.pc.stage.AdmitRow? && s'.pc != s.pc ==> Saves(s, s'))
    && (s'.pc != s.pc && s'.pc.Busy? && (s'.pc.stage.AdmitRow? || s'.pc.stage.RejectRow?) ==>
          s'.pc.o.id in s'.mem.states)
  }

  lemma RowFlows(c: Config, s: State, l: Label)
    requires Usable(c) && (s.pc.Busy? ==> s.inbox != [])
    ensures RowFlow(s, Next(c, s, l))
  {
    hide Next, Plan, Logged, SaveRow, SameBirth, Looks;
    var s' := Next(c, s, l);
    StepFlows(c, s, l);
    StepEffect(c, s, l);
    UpdateKeepsBirth(s);
    if l.Work? && WorkerWrite(s.pc).Some? && WorkerWrite(s.pc).value.Save? {
      assert s'.rows == SaveRow(s.rows, s.pc.o, WorkerWrite(s.pc).value.st, s.now);
    }
  }

  lemma UpdateKeepsBirth(s: State)
    ensures SameBirth(s.rows, s.rows)
    ensures forall id, st, q :: SameBirth(s.rows, UpdateRow(s.rows, id, st, q))
  {}

  // ------------------------------------------------------------------- daily caps

  /** Orders this process admitted, not stored at boot, whose row was created on the given day. */
  function Counted(boot: set<string>, log: seq<Entry>, rows: Rows, day: int, side: Option<Side>): set<string> {
    set id | id in rows && id in AdmittedIds(log) && id !in boot && Day(rows[id].createdAt) == day
             && (side.Some? ==> rows[id].order.side == side.value)
  }

  /** A cap as the daily check applies it: None is the combined cap, a side has one only if positive. */
  function CapOf(c: Config, side: Option<Side>): Option<int> {
    match side
    case None => Some(c.maxDaily)
    case Some(sd) => if SideCap(c, sd) > 0 then Some(SideCap(c, sd)) else None
  }

  ghost predicate WithinDaily(c: Config, boot: set<string>, s: State, day: int, side: Option<Side>) {
    CapOf(c, side).Some? ==>
      var n := |Counted(boot, s.log, s.rows, day, side)|;
      n == 0 || n <= CapOf(c, side).value
  }

  /** The room a passed check promised is still there: only this worker creates rows. */
  predicate RoomLeft(rows: Rows, now: int, checked: int, side: Option<Side>, cap: int) {
    checked <= now && |CreatedSince(rows, Day(checked) * DAY, side)| < cap
  }

  ghost predicate CapStage(c: Config, boot: set<string>, s: State) {
    s.pc.Busy? ==>
      var o, st := s.pc.o, s.pc.stage;
      && (Cleared(st) || st.AdmitRow? ==> (o.id in s.rows ==> o.id in boot))
      && (st.AdmitRow? || st.RejectRow? ==> o.id in s.mem.states)
      && (st.AtSide? || st.Waiting? || st.AdmitMem? || st.AdmitRow? ==>
            RoomLeft(s.rows, s.now, st.checked, None, c.maxDaily))
      && ((st.Waiting? || st.AdmitMem? || st.AdmitRow?) && SideCap(c, o.side) > 0 ==>
            RoomLeft(s.rows, s.now, st.sideChecked, Some(o.side), SideCap(c, o.side)))
  }

  ghost predicate CapTable(boot: set<string>, s: State) {
    && (forall id :: id in s.rows ==> id in boot || id in s.mem.states)
    && (forall id :: id in AdmittedIds(s.log) ==>
                       id in s.rows || (s.pc.Busy? && s.pc.stage.AdmitRow? && s.pc.o.id == id))
  }

  ghost predicate Capped(c: Config, boot: set<string>, s: State) {
    && CapStage(c, boot, s) && CapTable(boot, s)
    && forall day, side :: WithinDaily(c, boot, s, day, side)
  }

  lemma SubsetSize(a: set<string>, b: set<string>)
    requires a <= b
    ensures |a| <= |b|
  {
    if a != {} {
      var x :| x in a;
      SubsetSize(a - {x}, b - {x});
    }
  }

  lemma SameBirthCounts(boot: set<string>, log: seq<Entry>, a: Rows, b: Rows, day: int, start: int, side: Option<Side>)
    requires SameBirth(a, b)
    ensures Counted(boot, log, a, day, side) == Counted(boot, log, b, day, side)
    ensures CreatedSince(a, start, side) == CreatedSince(b, start, side)
  {}

  lemma CapTableStep(c: Config, boot: set<string>, s: State, s': State)
    requires Usable(c) && Flow(c, s, s') && RowFlow(s, s') && CapTable(boot, s) && CapStage(c, boot, s)
    ensures CapTable(boot, s')
  {
    hide Plan, Comes, RoomLeft, AdmittedIds, Logged;
    if s'.log != s.log {
      var e := Append(c, s, s');
    }
  }

  lemma CapStageStep(c: Config, boot: set<string>, s: State, s': State)
    requires Usable(c) && Flow(c, s, s') && RowFlow(s, s') && CapStage(c, boot, s) && CapTable(boot, s)
    ensures CapStage(c, boot, s')
  {
    hide Plan, Logged, AdmittedIds, CreatedSince;
    if SameBirth(s.rows, s'.rows) && s'.pc.Busy? {
      var o, st := s'.pc.o, s'.pc.stage;
      forall start, side
        ensures CreatedSince(s'.rows, start, side) == CreatedSince(s.rows, start, side)
      {
        SameBirthCounts(boot, s.log, s.rows, s'.rows, 0, start, side);
      }
      FullIsNoRoom(s.rows, s.now, None, c.maxDaily);
      FullIsNoRoom(s.rows, s.now, Some(o.side), SideCap(c, o.side));
    }
  }

  lemma FullIsNoRoom(rows: Rows, now: int, side: Option<Side>, cap: int)
    ensures !Full(rows, now, side, cap) ==> RoomLeft(rows, now, now, side, cap)
  {}

  /** Saving the admitted row uses the promised room, even if midnight passed since the check. */
  lemma AdmissionWithinDaily(c: Config, boot: set<string>, s: State, s': State, day: int, side: Option<Side>)
    requires CapStage(c, boot, s) && s.pc.Busy? && s.pc.stage.AdmitRow?
    requires s'.log == s.log && exists st :: s'.rows == SaveRow(s.rows, s.pc.o, st, s.now)
    requires WithinDaily(c, boot, s, day, side)
    ensures WithinDaily(c, boot, s', day, side)
  {
    hide AdmittedIds, Counted, SaveRow, CreatedSince;
    var o, st := s.pc.o, s.pc.stage;
    var before, after := Counted(boot, s.log, s.rows, day, side), Counted(boot, s'.log, s'.rows, day, side);
    var to :| s'.rows == SaveRow(s.rows, o, to, s.now);
    CountedAfterSave(boot, s.log, s.rows, o, to, s.now, day, side);
    if after != before && CapOf(c, side).Some? {
      var checked := if side.None? then st.checked else st.sideChecked;
      SubsetSize(after, before + {o.id});
      CountedAreRecent(boot, s.log, s.rows, day, side, checked, s.now);
      SubsetSize(before, CreatedSince(s.rows, Day(checked) * DAY, side));
    }
  }

  /** Saving a row adds at most its order, and only on the day and side it is created. */
  lemma CountedAfterSave(boot: set<string>, log: seq<Entry>, rows: Rows, o: Order, to: OrderState,
                         now: int, day: int, side: Option<Side>)
    requires o.id in rows ==> o.id in boot
    ensures var before := Counted(boot, log, rows, day, side);
            var after := Counted(boot, log, SaveRow(rows, o, to, now), day, side);
            && after <= before + {o.id}
            && (after != before ==> Day(now) == day && (side.Some? ==> o.side == side.value))
  {
    hide AdmittedIds;
    var before := Counted(boot, log, rows, day, side);
    var after := Counted(boot, log, SaveRow(rows, o, to, now), day, side);
    if o.id in rows || Day(now) != day || (side.Some? && o.side != side.value) {
      assert after == before;
    }
  }

  lemma CountedAreRecent(boot: set<string>, log: seq<Entry>, rows: Rows, day: int, side: Option<Side>,
                         checked: int, now: int)
    requires Day(now) == day && checked <= now
    ensures Counted(boot, log, rows, day, side) <= CreatedSince(rows, Day(checked) * DAY, side)
  {
    hide AdmittedIds;
    assert Day(checked) * DAY <= Day(now) * DAY;
  }

  lemma RejectionWithinDaily(c: Config, boot: set<string>, s: State, s': State, day: int, side: Option<Side>)
    requires CapTable(boot, s) && s.pc.Busy? && s.pc.stage.RejectRow?
    requires s'.log == s.log && exists st :: s'.rows == SaveRow(s.rows, s.pc.o, st, s.now)
    ensures Counted(boot, s'.log, s'.rows, day, side) == Counted(boot, s.log, s.rows, day, side)
  {
    hide AdmittedIds;
  }

  lemma LoggingWithinDaily(c: Config, boot: set<string>, s: State, s': State, day: int, side: Option<Side>)
    requires Usable(c) && Flow(c, s, s') && CapStage(c, boot, s) && SameBirth(s.rows, s'.rows)
    ensures Counted(boot, s'.log, s'.rows, day, side) == Counted(boot, s.log, s.rows, day, side)
  {
    hide AdmittedIds, Plan, Logged, Comes;
    SameBirthCounts(boot, s.log, s.rows, s'.rows, day, 0, side);
    if s'.log != s.log {
      var e := Append(c, s, s');
    }
  }

  lemma DailyStep(c: Config, boot: set<string>, s: State, s': State, day: int, side: Option<Side>)
    requires Usable(c) && Flow(c, s, s') && RowFlow(s, s')
    requires CapStage(c, boot, s) && CapTable(boot, s) && WithinDaily(c, boot, s, day, side)
    ensures WithinDaily(c, boot, s', day, side)
  {
    hide Flow, CapStage, CapTable, SaveRow, SameBirth, Counted;
    if SameBirth(s.rows, s'.rows) {
      LoggingWithinDaily(c, boot, s, s', day, side);
    } else if s.pc.stage.AdmitRow? {
      AdmissionWithinDaily(c, boot, s, s', day, side);
    } else {
      RejectionWithinDaily(c, boot, s, s', day, side);
    }
  }

  lemma CappedStep(c: Config, boot: set<string>, s: State, l: Label)
    requires Usable(c) && Capped(c, boot, s) && (s.pc.Busy? ==> s.inbox != [])
    ensures Capped(c, boot, Next(c, s, l)) && (Next(c, s, l).pc.Busy? ==> Next(c, s, l).inbox != [])
  {
    hide Next, Flow, RowFlow, CapStage, CapTable, WithinDaily;
    var s' := Next(c, s, l);
    StepFlows(c, s, l);
    RowFlows(c, s, l);
    CapTableStep(c, boot, s, s');
    CapStageStep(c, boot, s, s');
    forall day, side
      ensures WithinDaily(c, boot, s', day, side)
    {
      DailyStep(c, boot, s, s', day, side);
    }
  }

  lemma {:induction false} CappedAlways(c: Config, boot: set<string>, s: State, ls: seq<Label>)
    requires Usable(c) && Capped(c, boot, s) && (s.pc.Busy? ==> s.inbox != [])
    ensures Capped(c, boot, Run(c, s, ls))
    decreases |ls|
  {
    hide Next, Capped;
    if ls != [] {
      CappedStep(c, boot, s, ls[0]);
      CappedAlways(c, boot, Next(c, s, ls[0]), ls[1..]);
    }
  }

  /** The parents of all exchange calls. */
  function SubmittedIds(log: seq<Entry>): set<string> {
    set i | 0 <= i < |log| && log[i].ev.Sent? :: log[i].ev.parent
  }

  /** Of them, the orders not stored at boot whose row was created on a day of 24 hours, of one side or all. */
  function SubmittedOn(boot: Rows, s: State, day: int, side: Option<Side>): set<string> {
    set id | id in s.rows && id in SubmittedIds(s.log) && id !in boot
             && s.rows[id].createdAt / 86_400_000_000_000 == day
             && (side.Some? ==> s.rows[id].order.side == side.value)
  }

  lemma BootCapped(c: Config, b: Book, now: int)
    ensures Capped(c, b.rows.Keys, Gateway.Boot(c, b, now))
  {
    var s := Gateway.Boot(c, b, now);
    forall day, side
      ensures WithinDaily(c, b.rows.Keys, s, day, side)
    {
      assert Counted(b.rows.Keys, s.log, s.rows, day, side) == {};
    }
  }

  lemma CapHolds(c: Config, b: Book, now: int, ls: seq<Label>, day: int, side: Option<Side>)
    requires Usable(c) && CapOf(c, side).Some?
    ensures var s := Run(c, Gateway.Boot(c, b, now), ls);
            var n := |SubmittedOn(b.rows, s, day, side)|;
            n == 0 || n <= CapOf(c, side).value
  {
    var s0 := Gateway.Boot(c, b, now);
    BootCapped(c, b, now);
    CappedAlways(c, b.rows.Keys, s0, ls);
    OnceAlways(c, s0, ls);
    var s := Run(c, s0, ls);
    assert WithinDaily(c, b.rows.Keys, s, day, side);
    assert SubmittedOn(b.rows, s, day, side) <= Counted(b.rows.Keys, s.log, s.rows, day, side) by {
      forall id | id in SubmittedIds(s.log)
        ensures id in AdmittedIds(s.log)
      {
        var i :| 0 <= i < |s.log| && s.log[i].ev.Sent? && s.log[i].ev.parent == id;
        assert CallOk(c, AdmittedIds(s.log), s.log[i].ev);
      }
    }
    SubsetSize(SubmittedOn(b.rows, s, day, side), Counted(b.rows.Keys, s.log, s.rows, day, side));
  }

  /**
   In every interleaving, of the orders not already stored at boot, those submitted and created on
   any one day number at most the daily cap, the buys among them at most a positive buy cap, the sells
   at most a positive sell cap.
   */
  lemma DailyCapsHold(c: Config, b: Book, now: int, ls: seq<Label>, day: int)
    requires Usable(c)
    ensures var s := Run(c, Gateway.Boot(c, b, now), ls);
            && (SubmittedOn(b.rows, s, day, None) != {} ==> |SubmittedOn(b.rows, s, day, None)| <= c.maxDaily)
            && (c.maxBuys > 0 ==> |SubmittedOn(b.rows, s, day, Some(Buy))| <= c.maxBuys)
            && (c.maxSells > 0 ==> |SubmittedOn(b.rows, s, day, Some(Sell))| <= c.maxSells)
  {
    hide Run, SubmittedOn;
    CapHolds(c, b, now, ls, day, None);
    if c.maxBuys > 0 {
      CapHolds(c, b, now, ls, day, Some(Buy));
    }
    if c.maxSells > 0 {
      CapHolds(c, b, now, ls, day, Some(Sell));
    }
  }

  /**
   Why IDs stored at boot are set apart: an admission counts toward today's limit exactly when its
   ID has no row yet, so resubmitting a stored finished order is never counted.
   */
  lemma AdmissionCountsIffNew(rows: Rows, o: Order, st: OrderState, now: int)
    ensures |CreatedSince(SaveRow(rows, o, st, now), Day(now) * DAY, None)|
         == |CreatedSince(rows, Day(now) * DAY, None)| + if o.id in rows then 0 else 1
  {
    var before := CreatedSince(rows, Day(now) * DAY, None);
    var after := CreatedSince(SaveRow(rows, o, st, now), Day(now) * DAY, None);
    assert after == if o.id in rows then before else before + {o.id};
  }

  // ------------------------------------------------------- limits at the exchange

  /** Every order a plan sends with a positive quantity keeps to its parent's ceilings. */
  lemma PlanWithinCaps(c: Config, o: Order, i: nat)
    requires Usable(c) && Risk.WithinCaps(c.policy, o) && Plan(c, o).Some? && i < |Plan(c, o).value|
    requires c.algo.Some? ==> Plan(c, o).value[i].quantity > 0.0
    ensures Risk.WithinCaps(c.policy, Plan(c, o).value[i])
  {
    if c.algo.Some? {
      hide Risk.WithinCaps, Algo.Quantities;
      var a := c.algo.value;
      KnownAlgorithmSlices(a, o.quantity);
      Algo.SlicingConserves(a, o.quantity, Algo.SliceCount(a));
      Risk.SmallerOrdersStayWithinCaps(c.policy, o, Ids.SliceId(o.id, i), Plan(c, o).value[i].quantity);
    }
  }

  lemma KnownAlgorithmSlices(a: Algo.Config, q: real)
    requires (a.algorithm.Vwap? ==> Algo.Sound(a)) && Algo.Quantities(a, q).Some?
    ensures Algo.SlicesOf(a)
  {}

  ghost predicate Limited(c: Config, s: State) {
    && (s.pc.Busy? && (s.pc.stage.AtSide? || s.pc.stage.Waiting? || s.pc.stage.AdmitMem? || InFlight(s.pc.stage)) ==>
          Risk.CheckIntent(c.policy, s.pc.o).None?)
    && (forall i :: 0 <= i < |s.log| && s.log[i].ev.Sent? ==>
                      && Risk.WithinCaps(c.policy, s.log[i].ev.attempt.child)
                      && (c.algo.Some? ==> s.log[i].ev.attempt.child.quantity > 0.0))
  }

  lemma LimitedStep(c: Config, s: State, l: Label)
    requires Usable(c) && Limited(c, s) && (s.pc.Busy? ==> s.inbox != [])
    ensures Limited(c, Next(c, s, l)) && (Next(c, s, l).pc.Busy? ==> Next(c, s, l).inbox != [])
  {
    hide Next, Plan, Logged, Risk.CheckIntent, Risk.WithinCaps;
    var s' := Next(c, s, l);
    StepFlows(c, s, l);
    if s'.log != s.log {
      var e := Append(c, s, s');
      if e.ev.Sent? {
        Risk.AllowedIff(c.policy, s.pc.o);
        PlanWithinCaps(c, s.pc.o, s.pc.stage.next);
      }
    }
  }

  lemma {:induction false} LimitedAlways(c: Config, s: State, ls: seq<Label>)
    requires Usable(c) && Limited(c, s) && (s.pc.Busy? ==> s.inbox != [])
    ensures Limited(c, Run(c, s, ls))
    decreases |ls|
  {
    hide Next, Limited;
    if ls != [] {
      LimitedStep(c, s, ls[0]);
      LimitedAlways(c, Next(c, s, ls[0]), ls[1..]);
    }
  }

  /** Every order that reaches the exchange is within its instrument's ceilings, and slices are positive. */
  lemma LimitsSurviveSlicing(c: Config, b: Book, now: int, ls: seq<Label>, i: nat)
    requires Usable(c)
    requires var log := Run(c, Gateway.Boot(c, b, now), ls).log; i < |log| && log[i].ev.Sent?
    ensures var child := Run(c, Gateway.Boot(c, b, now), ls).log[i].ev.attempt.child;
            Risk.WithinCaps(c.policy, child) && (c.algo.Some? ==> child.quantity > 0.0)
  {
    LimitedAlways(c, Gateway.Boot(c, b, now), ls);
  }

  // The minimum quantity does not survive slicing.

  /** Every slice that is sent meets its instrument's minimum. */
  ghost predicate SlicesMeetMinimum(a: Algo.Config, p: Risk.Policy, o: Order)
    requires a.algorithm.Vwap? ==> Algo.Sound(a)
    requires Algo.Quantities(a, o.quantity).Some?
  {
    var qs := Algo.Quantities(a, o.quantity).value;
    forall i :: 0 <= i < |qs| && qs[i] > 0.0 ==> Risk.AboveFloor(Some(p), o.(quantity := qs[i]))
  }

  /** The minimum of an order's instrument, and of its slices'. */
  function MinimumOf(p: Risk.Policy, o: Order): real {
    Risk.LimitsFor(p, o.instrument).minQty
  }

  /** TWAP keeps it exactly when the parent holds that many minimums, or sends nothing. */
  lemma MinimumSurvivesTwapIff(a: Algo.Config, p: Risk.Policy, o: Order)
    requires a.algorithm.Twap? && MinimumOf(p, o) > 0.0
    ensures SlicesMeetMinimum(a, p, o)
       <==> o.quantity <= 0.0 || MinimumOf(p, o) * Algo.SliceCount(a) as real <= o.quantity
  {
    if o.quantity <= 0.0 {
      Algo.SlicingConserves(a, o.quantity, 0);
    } else {
      TwapMinimum(a, p, o);
    }
  }

  lemma TwapMinimum(a: Algo.Config, p: Risk.Policy, o: Order)
    requires a.algorithm.Twap? && MinimumOf(p, o) > 0.0 && o.quantity > 0.0
    ensures SlicesMeetMinimum(a, p, o) <==> MinimumOf(p, o) * Algo.SliceCount(a) as real <= o.quantity
  {
    var n := Algo.SliceCount(a) as real;
    var qs := Algo.Quantities(a, o.quantity).value;
    assert qs[0] == o.quantity / n > 0.0;
    DivideAcross(MinimumOf(p, o), o.quantity, n);
  }

  /** VWAP keeps it exactly when every weighted slice's share of the parent holds a minimum, or nothing is sent. */
  lemma MinimumSurvivesVwapIff(a: Algo.Config, p: Risk.Policy, o: Order)
    requires a.algorithm.Vwap? && Algo.Sound(a) && MinimumOf(p, o) > 0.0
    ensures SlicesMeetMinimum(a, p, o)
       <==> o.quantity <= 0.0 || SharesHold(Algo.Weights(a), o.quantity, MinimumOf(p, o))
  {
    hide SlicesMeetMinimum, Algo.Quantities, Algo.Weights;
    if o.quantity <= 0.0 {
      Algo.SlicingConserves(a, o.quantity, 0);
      NothingSent(a, p, o);
    } else {
      VwapMinimum(a, p, o);
    }
  }

  lemma NothingSent(a: Algo.Config, p: Risk.Policy, o: Order)
    requires (a.algorithm.Vwap? ==> Algo.Sound(a)) && Algo.Quantities(a, o.quantity).Some?
    requires var qs := Algo.Quantities(a, o.quantity).value; forall i :: 0 <= i < |qs| ==> qs[i] <= 0.0
    ensures SlicesMeetMinimum(a, p, o)
  {}

  lemma VwapMinimum(a: Algo.Config, p: Risk.Policy, o: Order)
    requires a.algorithm.Vwap? && Algo.Sound(a) && MinimumOf(p, o) > 0.0 && o.quantity > 0.0
    ensures SlicesMeetMinimum(a, p, o) <==> SharesHold(Algo.Weights(a), o.quantity, MinimumOf(p, o))
  {
    hide Risk.LimitsFor, Algo.Times, Algo.Weights, Algo.Normalised;
    Algo.WeightsSound(a);
    var w, q, min := Algo.Weights(a), o.quantity, MinimumOf(p, o);
    Algo.NormalisedLength(w);
    var qs := Algo.Quantities(a, q).value;
    forall i | 0 <= i < |w|
      ensures qs[i] > 0.0 <==> w[i] > 0.0
      ensures min <= qs[i] <==> Algo.Times(min, Sums.Sum(w)) <= Algo.Times(w[i], q)
    {
      NormalisedAt(w, i);
      Share(w[i], Sums.Sum(w), q, min);
    }
  }

  /** Weight by weight: the minimum times the total weight is no more than the parent times the weight. */
  predicate SharesHold(w: seq<real>, q: real, min: real) {
    forall i :: 0 <= i < |w| && w[i] > 0.0 ==> Algo.Times(min, Sums.Sum(w)) <= Algo.Times(w[i], q)
  }

  lemma NormalisedAt(w: seq<real>, i: nat)
    requires Sums.Sum(w) != 0.0 && i < |w|
    ensures |Algo.Normalised(w)| == |w| && Algo.Normalised(w)[i] == Algo.Times(w[i], 1.0 / Sums.Sum(w))
  {}

  lemma Share(w: real, t: real, q: real, min: real)
    requires t > 0.0 && q > 0.0
    ensures var x := Algo.Times(Algo.Times(w, 1.0 / t), q);
            && (x > 0.0 <==> w > 0.0)
            && (min <= x <==> Algo.Times(min, t) <= Algo.Times(w, q))
  {
    var y := w * (1.0 / t);
    assert y * t == w;
    var x := y * q;
    assert x * t == (y * t) * q == w * q;
    Compare(min, x, t);
    Compare(0.0, y, t);
    Compare(y, 0.0, t);
    Compare(0.0, y, q);
    Compare(y, 0.0, q);
  }

  lemma Compare(a: real, b: real, t: real)
    requires t > 0.0
    ensures a <= b <==> a * t <= b * t
  {
    if a <= b {
      assert (b - a) * t >= 0.0;
    } else {
      assert (a - b) * t > 0.0;
    }
  }

  /** A parent of exactly the minimum passes every check, and in two slices neither meets it. */
  lemma ThinSlices(o: Order, min: real, n: int)
    requires min > 0.0 && n >= 2 && o.quantity == min
    ensures var p := Risk.Policy(0.0, 0.0, map[Text.Upper(o.instrument) := Risk.Limits(0.0, 0.0, min)]);
            Risk.CheckIntent(Some(p), o).None? && !SlicesMeetMinimum(Algo.Config(Algo.Twap, n, None), p, o)
  {
    var p := Risk.Policy(0.0, 0.0, map[Text.Upper(o.instrument) := Risk.Limits(0.0, 0.0, min)]);
    MinimumSurvivesTwapIff(Algo.Config(Algo.Twap, n, None), p, o);
    assert min * n as real > min;
  }

  /** So it is under VWAP, as soon as two slices carry weight. */
  lemma ThinVwapSlices(o: Order, min: real, a: Algo.Config, i: nat, j: nat)
    requires min > 0.0 && o.quantity == min && a.algorithm.Vwap? && Algo.Sound(a)
    requires i < j < |Algo.Weights(a)| && Algo.Weights(a)[i] > 0.0 && Algo.Weights(a)[j] > 0.0
    ensures var p := Risk.Policy(0.0, 0.0, map[Text.Upper(o.instrument) := Risk.Limits(0.0, 0.0, min)]);
            Risk.CheckIntent(Some(p), o).None? && !SlicesMeetMinimum(a, p, o)
  {
    hide SlicesMeetMinimum, Algo.Weights, Algo.Times;
    var p := Risk.Policy(0.0, 0.0, map[Text.Upper(o.instrument) := Risk.Limits(0.0, 0.0, min)]);
    var w := Algo.Weights(a);
    Algo.WeightsSound(a);
    TwoWeights(w, i, j);
    OutweighsShare(min, Sums.Sum(w), w[i]);
    MinimumSurvivesVwapIff(a, p, o);
  }

  lemma OutweighsShare(min: real, total: real, w: real)
    requires min > 0.0 && total > w
    ensures Algo.Times(min, total) > Algo.Times(w, min)
  {
    assert min * (total - w) > 0.0;
  }

  lemma TwoWeights(w: seq<real>, i: nat, j: nat)
    requires Sums.NonNegative(w) && i < j < |w| && w[j] > 0.0
    ensures Sums.Sum(w) > w[i]
  {
    Sums.PrefixSumBounded(w, j + 1);
    Sums.SumPrefix(w, j);
    Sums.PrefixSumBounded(w[..j], j);
    assert w[..j][i] == w[i];
  }

  lemma DivideAcross(a: real, b: real, n: real)
    requires n > 0.0
    ensures a <= b / n <==> a * n <= b
  {
    assert (b / n) * n == b;
    Compare(a, b / n, n);
  }
}
