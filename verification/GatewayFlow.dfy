/**
 What one step can do, whichever label it carries.  `Flow` is its control flow and its log entry,
 `Effect` what it does to the switches, the clock, the limiter, memory and the table.
 */
module GatewayFlow {
  import opened Exchange
  import opened Tracker
  import opened Gateway
  import Limiter
  import Risk
  import Algo

  /** Past the duplicate check, not yet in the tracker. */
  predicate Cleared(st: Stage) {
    st.AtRisk? || st.AtSide? || st.Waiting? || st.AdmitMem?
  }

  /** In the tracker as pending, and its outcome not yet settled. */
  predicate InFlight(st: Stage) {
    || st.AdmitRow? || st.Sending? || st.FailMem? || st.FailRow? || st.AcceptMem? || st.AcceptRow?
    || st.FillMem? || st.FillRow? || st.Publishing?
  }

  /** Where a stage can have come from. */
  ghost predicate Comes(c: Config, s: State, o: Order, to: Stage)
    requires Usable(c)
  {
    if to.AtHalt? then !s.pc.Busy?
    else
      && s.pc.Busy? && s.pc.o == o
      && (to.AtId? ==> s.pc.stage.AtHalt? && !s.halted)
      && (to.AtDup? ==> s.pc.stage.AtId? && Risk.ValidateOrderId(o.id).None?)
      && (to.AtRisk? ==> s.pc.stage.AtDup? && o.id !in s.mem.states)
      && (to.AtSide? ==>
            && s.pc.stage.AtRisk? && Risk.CheckIntent(c.policy, o).None? && to.checked == s.now
            && !Full(s.rows, s.now, None, c.maxDaily))
      && (to.Waiting? ==>
            && s.pc.stage.AtSide? && to.checked == s.pc.stage.checked && to.sideChecked == s.now
            && (SideCap(c, o.side) > 0 ==> !Full(s.rows, s.now, Some(o.side), SideCap(c, o.side))))
      && (to.AdmitMem? ==> s.pc.stage == Waiting(to.checked, to.sideChecked))
      && (to.AdmitRow? ==> s.pc.stage == AdmitMem(to.checked, to.sideChecked))
      && (to.Sending? ==> (s.pc.stage.AdmitRow? && to == Sending([], 0))
                          || (s.pc.stage.Sending? && to.next == s.pc.stage.next + 1
                              && Plan(c, o).Some? && s.pc.stage.next < |Plan(c, o).value|))
      && (InFlight(to) && !to.AdmitRow? ==> InFlight(s.pc.stage))
      && (to.RejectMem? ==> Vetting(s.pc.stage) && LeavesRecord(to.why))
      && (to.RejectRow? ==> s.pc.stage == RejectMem(to.why))
      && (to.Committing? && to.out.TurnedAway? ==>
            || s.pc.stage == RejectRow(to.out.why)
            || (s.pc.stage.AtId? && to.out.why.BadId?)
            || (s.pc.stage.AtDup? && to.out.why.Duplicate?))
  }

  /** The reason a refusal gives holds of the state it was given in. */
  ghost predicate Because(c: Config, s: State, why: Refusal)
    requires s.pc.Busy?
  {
    var o, st := s.pc.o, s.pc.stage;
    match why
    case Halted => st.AtHalt? && s.halted
    case BadId(error) => st.AtId? && Risk.ValidateOrderId(o.id) == Some(error)
    case Duplicate => st.AtDup? && o.id in s.mem.states
    case OverPolicy(limit) => st.AtRisk? && Risk.CheckIntent(c.policy, o) == Some(limit)
    case Unreachable => st.AtRisk? || (st.AtSide? && SideCapped(c, o.side))
    case DailyCount => st.AtRisk? && |CreatedSince(s.rows, Day(s.now) * DAY, None)| >= c.maxDaily
    case SideCount =>
      && st.AtSide? && SideCapped(c, o.side)
      && |CreatedSince(s.rows, Day(s.now) * DAY, Some(o.side))| >= if o.side.Buy? then c.maxBuys else c.maxSells
  }

  /** Buys and sells have a cap of their own if it is positive, nothing else has. */
  predicate SideCapped(c: Config, side: Side) {
    (side.Buy? && c.maxBuys > 0) || (side.Sell? && c.maxSells > 0)
  }

  /** What an event says about the step that logged it. */
  ghost predicate Explained(c: Config, s: State, s': State, e: Entry)
    requires Usable(c)
  {
    && e.at == s.now == s'.now
    && (e.who.Streamer? ==> e.ev.Published?)
    && (e.who.Delivery? ==> s'.inbox != [] && e.who == Delivery(|s'.inbox|))
    && (e.ev.Fetched? ==> !s.pc.Busy?)
    && (e.who.Delivery? && !e.ev.Fetched? ==> s.pc.Busy? && s'.inbox == s.inbox)
    && (e.ev.Refused? ==>
          && Because(c, s, e.ev.why) && s'.pc.Busy? && s'.pc.o == s.pc.o
          && s'.pc.stage == if LeavesRecord(e.ev.why) then RejectMem(e.ev.why) else Committing(TurnedAway(e.ev.why)))
    && (e.ev.Granted? ==>
          s.pc.stage.Waiting? && Limiter.Grants(s.bucket, s.now) && s'.pc.Busy? && s'.pc.stage.AdmitMem?)
    && (e.ev.Throttled? ==> s.pc.stage.Waiting? && s'.pc.Top? && !s.alive && !Limiter.Grants(s.bucket, s.now))
    && (e.ev.Admitted? ==>
          && s.pc.stage.AdmitMem? && e.ev.o == s.pc.o && s'.pc.Busy? && s'.pc.stage.AdmitRow?
          && s.pc.o.id in s'.mem.states)
    && (e.ev.Sent? ==>
          && s.pc.stage.Sending? && e.ev.parent == s.pc.o.id && e.ev.attempt.index == s.pc.stage.next
          && Plan(c, s.pc.o).Some? && s.pc.stage.next < |Plan(c, s.pc.o).value|
          && e.ev.attempt.child == Plan(c, s.pc.o).value[s.pc.stage.next]
          && (c.algo.Some? ==> e.ev.attempt.child.quantity > 0.0)
          && s'.pc.Busy? && s'.pc.stage.Sending? && s'.pc.stage.next == s.pc.stage.next + 1)
    && (e.who.Delivery? && (e.ev.Failed? || e.ev.Accepted? || e.ev.Published? || e.ev.GaveUp?) ==>
          s.pc.stage.Sending? || s.pc.stage.Publishing?)
  }

  ghost predicate Logged(c: Config, s: State, s': State)
    requires Usable(c)
  {
    s'.log == s.log
    || (|s'.log| == |s.log| + 1 && s'.log[..|s.log|] == s.log && Explained(c, s, s', s'.log[|s.log|]))
  }

  /** A grant and an admission do not happen unlogged. */
  ghost predicate Announces(s: State, s': State)
    requires s'.pc.Busy?
  {
    && (s'.pc.stage.AdmitMem? ==> s'.log == Emit(s, Granted).log)
    && (s'.pc.stage.AdmitRow? ==> s'.log == Emit(s, Admitted(s'.pc.o)).log)
  }

  ghost predicate Flow(c: Config, s: State, s': State)
    requires Usable(c)
  {
    && s.now <= s'.now
    && s.mem.states.Keys <= s'.mem.states.Keys
    && s.inbox <= s'.inbox
    && (s'.inbox != s.inbox ==>
          s.pc.Fetching? && s'.pc.Busy? && s'.pc.stage.AtHalt? && s'.inbox == s.inbox + [s'.pc.o])
    && (s'.pc.Busy? && !s.pc.Busy? ==> s'.inbox != s.inbox)
    && Logged(c, s, s')
    && (s'.pc != s.pc && s'.pc.Busy? ==> Comes(c, s, s'.pc.o, s'.pc.stage) && Announces(s, s'))
  }

  lemma EmitLogged(c: Config, s: State, s': State, ev: Event)
    requires Usable(c) && s'.log == s.log + [Entry(Delivery(|s'.inbox|), s.now, ev)]
    requires Explained(c, s, s', Entry(Delivery(|s'.inbox|), s.now, ev))
    ensures Logged(c, s, s')
  {
    hide Explained;
  }

  lemma Unlogged(c: Config, s: State, s': State)
    requires Usable(c) && s'.log == s.log
    ensures Logged(c, s, s')
  {}

  /** The step stays in its delivery and its clock does not move. */
  predicate Local(s: State, s': State) {
    s.pc.Busy? && s'.inbox == s.inbox != [] && s'.now == s.now
  }

  lemma RefusedLogged(c: Config, s: State, s': State, why: Refusal)
    requires Usable(c) && Local(s, s') && s'.log == Emit(s, Refused(why)).log && Because(c, s, why)
    requires s'.pc == Busy(s.pc.o, if LeavesRecord(why) then RejectMem(why) else Committing(TurnedAway(why)))
    ensures Logged(c, s, s')
  {
    hide Logged, Plan, Because;
    EmitLogged(c, s, s', Refused(why));
  }

  lemma RefusalFlows(c: Config, s: State, o: Order, why: Refusal)
    requires Usable(c) && s.inbox != [] && s.pc.Busy? && s.pc.o == o && Because(c, s, why)
    ensures Flow(c, s, if LeavesRecord(why) then Reject(s, o, why) else TurnAway(s, o, why))
  {
    hide Plan, Logged, CreatedSince, Risk.CheckIntent, Risk.ValidateOrderId;
    RefusedLogged(c, s, if LeavesRecord(why) then Reject(s, o, why) else TurnAway(s, o, why), why);
  }

  lemma GotoFlows(c: Config, s: State, o: Order, to: Stage)
    requires Usable(c) && s.inbox != [] && s.pc.Busy? && s.pc.o == o && Comes(c, s, o, to)
    requires !to.AdmitMem? && !to.AdmitRow?
    ensures Flow(c, s, Goto(s, o, to))
  {
    hide Comes, Logged;
    Unlogged(c, s, Goto(s, o, to));
  }

  lemma ScreenFlows(c: Config, s: State, o: Order, st: Stage, ok: bool)
    requires Usable(c) && s.inbox != [] && s.pc == Busy(o, st) && (st.AtHalt? || st.AtId? || st.AtDup?)
    ensures Flow(c, s, Vet(c, s, o, st, ok))
  {
    hide Flow, Goto, Reject, TurnAway, Full, Plan, Risk.ValidateOrderId, Risk.CheckIntent;
    var error := Risk.ValidateOrderId(o.id);
    if st.AtHalt? && s.halted {
      RefusalFlows(c, s, o, Halted);
    } else if st.AtId? && error.Some? {
      RefusalFlows(c, s, o, BadId(error.value));
    } else if st.AtDup? && o.id in s.mem.states {
      RefusalFlows(c, s, o, Duplicate);
    } else {
      GotoFlows(c, s, o, if st.AtHalt? then AtId else if st.AtId? then AtDup else AtRisk);
    }
  }

  lemma LimitFlows(c: Config, s: State, o: Order, st: Stage, ok: bool)
    requires Usable(c) && s.inbox != [] && s.pc == Busy(o, st) && (st.AtRisk? || st.AtSide?)
    ensures Flow(c, s, Vet(c, s, o, st, ok))
  {
    hide Flow, Goto, Reject, TurnAway, CreatedSince, Plan, Risk.ValidateOrderId, Risk.CheckIntent;
    var limit, cap := Risk.CheckIntent(c.policy, o), SideCap(c, o.side);
    if st.AtRisk? {
      if limit.Some? {
        RefusalFlows(c, s, o, OverPolicy(limit.value));
      } else if !ok {
        RefusalFlows(c, s, o, Unreachable);
      } else if Full(s.rows, s.now, None, c.maxDaily) {
        RefusalFlows(c, s, o, DailyCount);
      } else {
        GotoFlows(c, s, o, AtSide(s.now));
      }
    } else if cap > 0 && !ok {
      RefusalFlows(c, s, o, Unreachable);
    } else if cap > 0 && Full(s.rows, s.now, Some(o.side), cap) {
      RefusalFlows(c, s, o, SideCount);
    } else {
      GotoFlows(c, s, o, Waiting(st.checked, s.now));
    }
  }

  lemma WaitFlows(c: Config, s: State, o: Order, st: Stage, stop: bool)
    requires Usable(c) && s.inbox != [] && s.pc == Busy(o, st) && st.Waiting?
    ensures Flow(c, s, Admit(c, s, o, st, stop))
  {
    hide Plan, Logged, Limiter.Grants, Limiter.Take;
    var s' := Admit(c, s, o, st, stop);
    if s'.pc.Top? {
      EmitLogged(c, s, s', Throttled);
    } else if s'.pc.stage.AdmitMem? {
      EmitLogged(c, s, s', Granted);
    } else {
      Unlogged(c, s, s');
    }
  }

  lemma AdmitMemFlows(c: Config, s: State, o: Order, st: Stage, stop: bool)
    requires Usable(c) && s.inbox != [] && s.pc == Busy(o, st) && st.AdmitMem?
    ensures Flow(c, s, Admit(c, s, o, st, stop))
  {
    hide Plan, Logged;
    EmitLogged(c, s, Admit(c, s, o, st, stop), Admitted(o));
  }

  /** A step that writes to memory or the table and logs nothing. */
  lemma WriteFlows(c: Config, s: State, o: Order, mem: Memory, rows: Rows, to: Stage)
    requires Usable(c) && s.inbox != [] && s.pc.Busy? && s.pc.o == o && Comes(c, s, o, to)
    requires !to.AdmitMem? && !to.AdmitRow? && s.mem.states.Keys <= mem.states.Keys
    ensures Flow(c, s, Goto(s.(mem := mem, rows := rows), o, to))
  {
    hide Comes, Logged;
    Unlogged(c, s, Goto(s.(mem := mem, rows := rows), o, to));
  }

  lemma AdmitRowFlows(c: Config, s: State, o: Order, st: Stage, stop: bool)
    requires Usable(c) && s.inbox != [] && s.pc == Busy(o, st) && st.AdmitRow?
    ensures Flow(c, s, Admit(c, s, o, st, stop))
  {
    hide Flow, Plan, SaveRow;
    WriteFlows(c, s, o, s.mem, SaveRow(s.rows, o, Pending, s.now), Sending([], 0));
  }

  lemma SentLogged(c: Config, s: State, s': State, a: Attempt)
    requires Usable(c) && Local(s, s') && s.pc.stage.Sending? && s'.log == Emit(s, Sent(s.pc.o.id, a)).log
    requires Plan(c, s.pc.o).Some? && a.index == s.pc.stage.next < |Plan(c, s.pc.o).value|
    requires a.child == Plan(c, s.pc.o).value[a.index] && (c.algo.Some? ==> a.child.quantity > 0.0)
    requires s'.pc.Busy? && s'.pc.stage.Sending? && s'.pc.stage.next == a.index + 1
    ensures Logged(c, s, s')
  {
    hide Logged, Plan;
    EmitLogged(c, s, s', Sent(s.pc.o.id, a));
  }

  lemma ClosingLogged(c: Config, s: State, s': State, ev: Event)
    requires Usable(c) && Local(s, s') && s'.log == Emit(s, ev).log
    requires s.pc.stage.Sending? || s.pc.stage.Publishing?
    requires ev.Failed? || ev.Accepted? || ev.Published? || ev.GaveUp?
    ensures Logged(c, s, s')
  {
    hide Logged, Plan;
    EmitLogged(c, s, s', ev);
  }

  /** A step that goes on and says so. */
  lemma LoudFlows(c: Config, s: State, o: Order, to: Stage, ev: Event)
    requires Usable(c) && s.inbox != [] && s.pc.Busy? && s.pc.o == o && Comes(c, s, o, to)
    requires !to.AdmitMem? && !to.AdmitRow? && Logged(c, s, Goto(Emit(s, ev), o, to))
    ensures Flow(c, s, Goto(Emit(s, ev), o, to))
  {
    hide Comes, Logged;
  }

  lemma CallFlows(c: Config, s: State, o: Order, st: Stage, a: Attempt)
    requires Usable(c) && s.inbox != [] && s.pc == Busy(o, st) && st.Sending?
    requires Plan(c, o).Some? && a.index == st.next < |Plan(c, o).value|
    requires a.child == Plan(c, o).value[a.index] && (c.algo.Some? ==> a.child.quantity > 0.0)
    ensures Flow(c, s, Goto(Emit(s, Sent(o.id, a)), o, Sending(st.tried + [a], st.next + 1)))
  {
    hide Plan, Logged, Flow;
    var to := Sending(st.tried + [a], st.next + 1);
    SentLogged(c, s, Goto(Emit(s, Sent(o.id, a)), o, to), a);
    LoudFlows(c, s, o, to, Sent(o.id, a));
  }

  lemma CloseFlows(c: Config, s: State, o: Order, st: Stage, to: Stage, ev: Event)
    requires Usable(c) && s.inbox != [] && s.pc == Busy(o, st) && st.Sending?
    requires (ev.Failed? && to.FailMem?) || (ev.Accepted? && to.AcceptMem?)
    ensures Flow(c, s, Goto(Emit(s, ev), o, to))
  {
    hide Plan, Logged, Flow;
    ClosingLogged(c, s, Goto(Emit(s, ev), o, to), ev);
    LoudFlows(c, s, o, to, ev);
  }

  lemma SubmitFlows(c: Config, s: State, o: Order, st: Stage, answer: Option<Fill>, stop: bool)
    requires Usable(c) && s.inbox != [] && s.pc == Busy(o, st) && st.Sending?
    ensures Flow(c, s, Submit(c, s, o, st, answer, stop))
  {
    hide Plan, Flow, Answers, Algo.Aggregate, Emit;
    var to := Submit(c, s, o, st, answer, stop).pc.stage;
    if to.FailMem? {
      CloseFlows(c, s, o, st, to, Failed);
    } else if to.AcceptMem? {
      CloseFlows(c, s, o, st, to, Accepted(to.fill));
    } else if to.tried == st.tried {
      GotoFlows(c, s, o, to);
    } else {
      CallFlows(c, s, o, st, Attempt(st.next, Plan(c, o).value[st.next], answer));
    }
  }

  lemma MemoryFlows(c: Config, s: State, o: Order, st: Stage)
    requires Usable(c) && s.inbox != [] && s.pc == Busy(o, st)
    requires st.FailMem? || st.AcceptMem? || st.FillMem? || st.RejectMem?
    ensures Flow(c, s, Record(c, s, o, st))
  {
    hide Flow, Plan, StateOnlyQty, Changes;
    var s' := Record(c, s, o, st);
    WriteFlows(c, s, o, s'.mem, s.rows, s'.pc.stage);
  }

  lemma TableFlows(c: Config, s: State, o: Order, st: Stage)
    requires Usable(c) && s.inbox != [] && s.pc == Busy(o, st)
    requires st.FailRow? || st.AcceptRow? || st.FillRow? || st.RejectRow?
    ensures Flow(c, s, Record(c, s, o, st))
  {
    hide Flow, Plan, UpdateRow, SaveRow;
    var s' := Record(c, s, o, st);
    WriteFlows(c, s, o, s.mem, s'.rows, s'.pc.stage);
  }

  lemma SettleFlows(c: Config, s: State, o: Order, st: Stage, ok: bool, stop: bool)
    requires Usable(c) && s.inbox != [] && s.pc == Busy(o, st) && Settling(st)
    ensures Flow(c, s, Settle(c, s, o, st, ok, stop))
  {
    hide Plan, Logged;
    var s' := Settle(c, s, o, st, ok, stop);
    if st.Committing? {
      EmitLogged(c, s, s', Committed(ok));
    } else {
      ClosingLogged(c, s, s', if s'.pc.Top? then GaveUp else Published(st.done, ok));
    }
  }

  lemma WorkFlows(c: Config, s: State, answer: Option<Fill>, ok: bool, stop: bool)
    requires Usable(c) && (s.pc.Busy? ==> s.inbox != [])
    ensures Flow(c, s, WorkStep(c, s, answer, ok, stop))
  {
    if s.pc.Busy? {
      hide Flow, Vet, Admit, Submit, Record, Settle;
      var o, st := s.pc.o, s.pc.stage;
      if st.AtHalt? || st.AtId? || st.AtDup? {
        ScreenFlows(c, s, o, st, ok);
      } else if st.AtRisk? || st.AtSide? {
        LimitFlows(c, s, o, st, ok);
      } else if st.Waiting? {
        WaitFlows(c, s, o, st, stop);
      } else if st.AdmitMem? {
        AdmitMemFlows(c, s, o, st, stop);
      } else if st.AdmitRow? {
        AdmitRowFlows(c, s, o, st, stop);
      } else if st.Sending? {
        SubmitFlows(c, s, o, st, answer, stop);
      } else if Settling(st) {
        SettleFlows(c, s, o, st, ok, stop);
      } else if st.FailRow? || st.AcceptRow? || st.FillRow? || st.RejectRow? {
        TableFlows(c, s, o, st);
      } else {
        MemoryFlows(c, s, o, st);
      }
    }
  }

  lemma StreamFlows(c: Config, s: State, ok: bool, stop: bool)
    requires Usable(c)
    ensures Flow(c, s, StreamStep(c, s, ok, stop)) && StreamStep(c, s, ok, stop).pc == s.pc
  {
    hide Plan, UpdateRow, Comes, Logged, Announces;
    var s' := StreamStep(c, s, ok, stop);
    if s'.log == s.log {
      Unlogged(c, s, s');
    } else {
      StreamLogged(c, s, s', s.stream.fill, ok);
    }
  }

  lemma StreamLogged(c: Config, s: State, s': State, f: Fill, ok: bool)
    requires Usable(c) && s'.now == s.now && s'.log == s.log + [Entry(Streamer, s.now, Published(f, ok))]
    ensures Logged(c, s, s')
  {
    hide Plan, Because;
  }

  /** Every step of every actor keeps to the flow. */
  lemma StepFlows(c: Config, s: State, l: Label)
    requires Usable(c) && (s.pc.Busy? ==> s.inbox != [])
    ensures Flow(c, s, Next(c, s, l)) && (Next(c, s, l).pc.Busy? ==> Next(c, s, l).inbox != [])
  {
    hide WorkStep, Plan, StreamStep, Logged;
    var s' := Next(c, s, l);
    match l
    case Work(answer, ok, stop) => WorkFlows(c, s, answer, ok, stop);
    case Deliver(o) =>
      if s.pc.Fetching? {
        EmitLogged(c, s, s', Fetched(o));
      } else {
        Unlogged(c, s, s');
      }
    case StreamWork(ok, stop) => StreamFlows(c, s, ok, stop);
    case _ => Unlogged(c, s, s');
  }

  // ------------------------------------------------------------ writes and switches

  /** A table write that memory already shows. */
  datatype Write = Save(o: Order, st: OrderState) | Update(id: string, st: OrderState, qty: real)

  function RowOf(w: Write): string {
    if w.Save? then w.o.id else w.id
  }

  function InMemory(m: Memory, w: Write): Memory {
    if w.Save? then AddMem(m, w.o, w.st) else SetMem(m, w.id, w.st)
  }

  function InTable(rows: Rows, w: Write, now: int): Rows {
    if w.Save? then SaveRow(rows, w.o, w.st, now) else UpdateRow(rows, w.id, w.st, w.qty)
  }

  /** The write the intent worker, or the fills worker, has outstanding. */
  function WorkerWrite(pc: Pc): Option<Write> {
    if !pc.Busy? then None
    else match pc.stage
      case AdmitRow(_, _) => Some(Save(pc.o, Pending))
      case RejectRow(_) => Some(Save(pc.o, Rejected))
      case FailRow(_, qty) => Some(Update(pc.o.id, Rejected, qty))
      case AcceptRow(_, _, qty) => Some(Update(pc.o.id, Submitted, qty))
      case FillRow(_, f, qty) => Some(Update(f.orderId, Filled, qty))
      case _ => None
  }

  function StreamWrite(st: StreamPc): Option<Write> {
    if st.StreamRow? then Some(Update(st.fill.orderId, Reported(st.fill), st.fill.quantity)) else None
  }

  /** Memory, the table, and what is on its way from the one to the other. */
  datatype Cache = Cache(mem: Memory, rows: Rows, worker: Option<Write>, stream: Option<Write>)

  function CacheOf(s: State): Cache {
    Cache(s.mem, s.rows, WorkerWrite(s.pc), StreamWrite(s.stream))
  }

  /** A worker with a write outstanding completes it; one without may start one, in memory. */
  ghost predicate WorkerMoves(k: Cache, k': Cache, now: int) {
    match k.worker
    case Some(w) => k' == k.(rows := InTable(k.rows, w, now), worker := None)
    case None =>
      k' == k || (k'.worker.Some? && k' == k.(mem := InMemory(k.mem, k'.worker.value), worker := k'.worker))
  }

  ghost predicate StreamMoves(k: Cache, k': Cache, now: int) {
    match k.stream
    case Some(w) => k' == k || k' == k.(rows := InTable(k.rows, w, now), stream := None)
    case None =>
      k' == k || (k'.stream.Some? && k' == k.(mem := InMemory(k.mem, k'.stream.value), stream := k'.stream))
  }

  /** One look at the limiter, and what the log says of it. */
  ghost predicate Looks(s: State, s': State) {
    && s'.bucket == Limiter.Take(s.bucket, s.now)
    && s'.checks == s.checks + [Limiter.Check(s.now, Limiter.Grants(s.bucket, s.now))]
    && (if Limiter.Grants(s.bucket, s.now) then s'.log == Emit(s, Granted).log
        else s'.log == s.log || s'.log == Emit(s, Throttled).log)
  }

  predicate InLimiter(pc: Pc) {
    pc.Busy? && pc.stage.Waiting?
  }

  /** What a worker's step inside a delivery leaves alone, and what it moves. */
  ghost predicate WorkEffect(s: State, s': State) {
    && s'.halted == s.halted && s'.intake == s.intake && s'.alive == s.alive
    && s'.now == s.now && s'.stream == s.stream && !s'.pc.Fetching?
    && (if InLimiter(s.pc) then Looks(s, s') else s'.bucket == s.bucket && s'.checks == s.checks)
    && WorkerMoves(CacheOf(s), CacheOf(s'), s.now)
    && (WorkerWrite(s.pc).Some? ==> s'.log == s.log && s'.pc.Busy?)
  }

  ghost predicate Effect(s: State, l: Label, s': State) {
    && s'.halted == (l.Halt? || (s.halted && !l.Resume?))
    && s'.intake == (s.intake && !l.CloseIntake? && !l.Shutdown?)
    && s'.alive == (s.alive && !l.Shutdown?)
    && s'.now == s.now + (if l.Tick? then l.dt else 0)
    && (!l.Work? && s.pc.Busy? ==> s'.pc == s.pc)
    && (s'.pc.Fetching? ==> s.pc.Fetching? || s.intake)
    && (if l.Work? && InLimiter(s.pc) then Looks(s, s') else s'.bucket == s.bucket && s'.checks == s.checks)
    && (if l.Stream? || l.StreamWork? then StreamMoves(CacheOf(s), CacheOf(s'), s.now) && s'.pc == s.pc
        else if l.Work? then WorkerMoves(CacheOf(s), CacheOf(s'), s.now) && s'.stream == s.stream
        else CacheOf(s') == CacheOf(s))
    && (l.Work? && WorkerWrite(s.pc).Some? ==> s'.log == s.log && s'.pc.Busy?)
    && (l.StreamWork? && StreamWrite(s.stream).Some? ==> StreamWrite(s'.stream).None?)
    && (l.Stream? && StreamWrite(s.stream).Some? ==> s' == s)
  }

  /** A step that leaves limiter, memory and table alone. */
  ghost predicate Harmless(s: State, s': State) {
    && s'.halted == s.halted && s'.intake == s.intake && s'.alive == s.alive
    && s'.now == s.now && s'.stream == s.stream && s'.mem == s.mem && s'.rows == s.rows
    && s'.bucket == s.bucket && s'.checks == s.checks
  }

  lemma HarmlessEffect(s: State, s': State)
    requires Harmless(s, s') && !InLimiter(s.pc) && !s'.pc.Fetching?
    requires WorkerWrite(s.pc).None? && WorkerWrite(s'.pc).None?
    ensures WorkEffect(s, s')
  {}

  lemma MoveEffect(s: State, o: Order)
    requires !InLimiter(s.pc) && WorkerWrite(s.pc).None?
    ensures forall to {:trigger Goto(s, o, to)} :: WorkerWrite(Busy(o, to)).None? ==> WorkEffect(s, Goto(s, o, to))
    ensures forall to, ev {:trigger Goto(Emit(s, ev), o, to)} ::
              WorkerWrite(Busy(o, to)).None? ==> WorkEffect(s, Goto(Emit(s, ev), o, to))
  {
    forall to | WorkerWrite(Busy(o, to)).None?
      ensures WorkEffect(s, Goto(s, o, to))
    {
      HarmlessEffect(s, Goto(s, o, to));
    }
    forall to, ev | WorkerWrite(Busy(o, to)).None?
      ensures WorkEffect(s, Goto(Emit(s, ev), o, to))
    {
      HarmlessEffect(s, Goto(Emit(s, ev), o, to));
    }
  }

  lemma VetEffect(c: Config, s: State, o: Order, st: Stage, ok: bool)
    requires s.pc == Busy(o, st) && Vetting(st)
    ensures WorkEffect(s, Vet(c, s, o, st, ok))
  {
    hide Full, Risk.CheckIntent, Risk.ValidateOrderId, WorkEffect, Goto, Emit;
    MoveEffect(s, o);
  }

  lemma SubmitEffect(c: Config, s: State, o: Order, st: Stage, answer: Option<Fill>, stop: bool)
    requires Usable(c) && s.pc == Busy(o, st) && st.Sending?
    ensures WorkEffect(s, Submit(c, s, o, st, answer, stop))
  {
    hide Plan, Answers, Algo.Aggregate, WorkEffect, Goto, Emit;
    MoveEffect(s, o);
  }

  lemma SettleEffect(c: Config, s: State, o: Order, st: Stage, ok: bool, stop: bool)
    requires s.pc == Busy(o, st) && Settling(st)
    ensures WorkEffect(s, Settle(c, s, o, st, ok, stop))
  {
    if Settle(c, s, o, st, ok, stop).pc.Top? {
      hide WorkEffect;
      HarmlessEffect(s, Settle(c, s, o, st, ok, stop));
    } else {
      hide WorkEffect, Goto, Emit;
      MoveEffect(s, o);
    }
  }

  lemma AdmitEffect(c: Config, s: State, o: Order, st: Stage, stop: bool)
    requires s.pc == Busy(o, st) && Admitting(st)
    ensures WorkEffect(s, Admit(c, s, o, st, stop))
  {
    hide Limiter.Grants, Limiter.Take, SaveRow, AddMem;
  }

  lemma UpdateMemEffect(s: State, o: Order, id: string, st: OrderState, qty: real, changed: Stage, same: Stage)
    requires !InLimiter(s.pc) && WorkerWrite(s.pc).None?
    requires WorkerWrite(Busy(o, changed)) == Some(Update(id, st, qty)) && WorkerWrite(Busy(o, same)).None?
    ensures WorkEffect(s, UpdateMem(s, o, id, st, changed, same))
  {
    if !Changes(s.mem, id, st) {
      assert s.mem.states[id := st] == s.mem.states;
    }
  }

  lemma RecordInMemory(c: Config, s: State, o: Order, st: Stage)
    requires s.pc == Busy(o, st) && (st.FailMem? || st.AcceptMem? || st.FillMem? || st.RejectMem?)
    ensures WorkEffect(s, Record(c, s, o, st))
  {
    if st.RejectMem? {
      hide AddMem;
    } else {
      hide StateOnlyQty, UpdateMem, WorkEffect;
      var id := if st.FillMem? then st.done.orderId else o.id;
      var to := if st.FailMem? then Rejected else if st.AcceptMem? then Submitted else Filled;
      var qty := StateOnlyQty(s.mem, s.rows, id, to);
      match st
      case FailMem(tried) => UpdateMemEffect(s, o, id, to, qty, FailRow(tried, qty), Committing(Broken(tried)));
      case AcceptMem(tried, fill) =>
        UpdateMemEffect(s, o, id, to, qty, AcceptRow(tried, fill, qty), AfterAccept(tried, fill));
      case FillMem(tried, f) => UpdateMemEffect(s, o, id, to, qty, FillRow(tried, f, qty), Publishing(tried, f, 0));
    }
  }

  lemma RecordInTable(c: Config, s: State, o: Order, st: Stage)
    requires s.pc == Busy(o, st) && (st.FailRow? || st.AcceptRow? || st.FillRow? || st.RejectRow?)
    ensures WorkEffect(s, Record(c, s, o, st))
  {
    hide SaveRow, UpdateRow;
  }

  lemma BusyEffect(c: Config, s: State, l: Label)
    requires Usable(c) && l.Work? && s.pc.Busy?
    ensures WorkEffect(s, Next(c, s, l))
  {
    hide Vet, Admit, Submit, Record, Settle, WorkEffect;
    var o, st := s.pc.o, s.pc.stage;
    if Vetting(st) {
      VetEffect(c, s, o, st, l.ok);
    } else if Admitting(st) {
      AdmitEffect(c, s, o, st, l.stop);
    } else if st.Sending? {
      SubmitEffect(c, s, o, st, l.answer, l.stop);
    } else if Settling(st) {
      SettleEffect(c, s, o, st, l.ok, l.stop);
    } else if st.FailMem? || st.AcceptMem? || st.FillMem? || st.RejectMem? {
      RecordInMemory(c, s, o, st);
    } else {
      RecordInTable(c, s, o, st);
    }
  }

  lemma StreamArrives(c: Config, s: State, l: Label)
    requires Usable(c) && l.Stream?
    ensures Effect(s, l, Next(c, s, l))
  {
    hide WorkStep, StreamStep, InTable, Looks, WorkerMoves;
  }

  lemma StreamEffect(c: Config, s: State, l: Label)
    requires Usable(c) && l.StreamWork?
    ensures Effect(s, l, Next(c, s, l))
  {
    hide WorkStep, UpdateRow, InMemory, Looks, WorkerMoves;
  }

  lemma OperatorEffect(c: Config, s: State, l: Label)
    requires Usable(c) && !l.Stream? && !l.StreamWork? && !(l.Work? && s.pc.Busy?)
    ensures Effect(s, l, Next(c, s, l))
  {
    hide StreamStep, Vet, Admit, Submit, Record, Settle, Looks, StreamMoves, InTable, InMemory;
  }

  /** Every step of every actor has no other effect than this. */
  lemma StepEffect(c: Config, s: State, l: Label)
    requires Usable(c)
    ensures Effect(s, l, Next(c, s, l))
  {
    hide Next, InMemory, InTable, Looks;
    if l.Work? && s.pc.Busy? {
      BusyEffect(c, s, l);
    } else if l.Stream? {
      StreamArrives(c, s, l);
    } else if l.StreamWork? {
      StreamEffect(c, s, l);
    } else {
      OperatorEffect(c, s, l);
    }
  }
}
