/** What the checks decide, and what a refusal leaves behind. */
module GatewayRefusals {
  import opened Exchange
  import opened Tracker
  import opened Gateway
  import opened GatewayFlow
  import opened GatewayOnce
  import Risk

  // ------------------------------------------------------------------ the decisions

  /** Orders created today, of one side or all. */
  function Today(s: State, side: Option<Side>): int {
    |CreatedSince(s.rows, Day(s.now) * DAY, side)|
  }

  /** The halt comes first, then the ID, then whether it is known. */
  lemma ScreenDecides(c: Config, s: State, l: Label)
    requires Usable(c) && l.Work? && s.pc.Busy? && (s.pc.stage.AtHalt? || s.pc.stage.AtId? || s.pc.stage.AtDup?)
    ensures var o, st, to := s.pc.o, s.pc.stage, Next(c, s, l).pc.stage;
            && Next(c, s, l).pc.Busy? && Next(c, s, l).pc.o == o
            && (st.AtHalt? ==> to == if s.halted then RejectMem(Halted) else AtId)
            && (st.AtId? ==>
                  to == match Risk.ValidateOrderId(o.id)
                        case None => AtDup
                        case Some(error) => Committing(TurnedAway(BadId(error))))
            && (st.AtDup? ==> to == if o.id in s.mem.states then Committing(TurnedAway(Duplicate)) else AtRisk)
  {
    hide Admit, Submit, Record, Settle, StreamStep, Emit, Full, Risk.ValidateOrderId, Risk.CheckIntent;
  }

  /** The policy first, then whether the count can be read, then the count against the daily cap. */
  lemma RiskDecides(c: Config, s: State, l: Label)
    requires Usable(c) && l.Work? && s.pc.Busy? && s.pc.stage.AtRisk?
    ensures var o, to := s.pc.o, Next(c, s, l).pc.stage;
            && Next(c, s, l).pc.Busy? && Next(c, s, l).pc.o == o
            && to == match Risk.CheckIntent(c.policy, o)
                     case Some(limit) => RejectMem(OverPolicy(limit))
                     case None =>
                       if !l.ok then RejectMem(Unreachable)
                       else if Today(s, None) >= c.maxDaily then RejectMem(DailyCount)
                       else AtSide(s.now)
  {
    hide Admit, Submit, Record, Settle, StreamStep, Emit, CreatedSince, Risk.ValidateOrderId, Risk.CheckIntent;
  }

  /** A buy is held to the buy cap and a sell to the sell cap, if positive; nothing else is held to either. */
  lemma SideDecides(c: Config, s: State, l: Label)
    requires Usable(c) && l.Work? && s.pc.Busy? && s.pc.stage.AtSide?
    ensures var o, to := s.pc.o, Next(c, s, l).pc.stage;
            var passed := Waiting(s.pc.stage.checked, s.now);
            && Next(c, s, l).pc.Busy? && Next(c, s, l).pc.o == o
            && (o.side == Buy && c.maxBuys > 0 ==>
                  to == if !l.ok then RejectMem(Unreachable)
                        else if Today(s, Some(Buy)) >= c.maxBuys then RejectMem(SideCount) else passed)
            && (o.side == Sell && c.maxSells > 0 ==>
                  to == if !l.ok then RejectMem(Unreachable)
                        else if Today(s, Some(Sell)) >= c.maxSells then RejectMem(SideCount) else passed)
            && (!(o.side == Buy && c.maxBuys > 0) && !(o.side == Sell && c.maxSells > 0) ==> to == passed)
  {
    hide Admit, Submit, Record, Settle, StreamStep, Emit, CreatedSince, Risk.ValidateOrderId, Risk.CheckIntent;
  }

  // ------------------------------------------------------------------ the way out

  /** From a refusal on, the worker only records it, if it is to be, and commits. */
  lemma RejectPath(c: Config, s: State, l: Label)
    requires Usable(c) && l.Work? && s.pc.Busy? && s.inbox != []
    ensures var s' := Next(c, s, l);
            && (s.pc.stage.RejectMem? ==>
                  && s'.pc == Busy(s.pc.o, RejectRow(s.pc.stage.why))
                  && s'.mem == AddMem(s.mem, s.pc.o, Rejected) && s'.rows == s.rows)
            && (s.pc.stage.RejectRow? ==>
                  && s'.pc == Busy(s.pc.o, Committing(TurnedAway(s.pc.stage.why)))
                  && s'.mem == s.mem && s'.rows == SaveRow(s.rows, s.pc.o, Rejected, s.now))
            && (s.pc.stage.Committing? ==> s'.pc.Top? && s'.mem == s.mem && s'.rows == s.rows)
            && s'.inbox == s.inbox
  {
    hide Vet, Admit, Submit, SaveRow, AddMem;
    if s.pc.stage.RejectMem? || s.pc.stage.RejectRow? || s.pc.stage.Committing? {
      hide StreamStep;
    } else {
      hide Next;
      BusyKeepsInbox(c, s, l);
    }
  }

  lemma BusyKeepsInbox(c: Config, s: State, l: Label)
    requires Usable(c) && l.Work? && s.pc.Busy? && s.inbox != []
    ensures Next(c, s, l).inbox == s.inbox
  {
    hide Next, Plan, Logged, Comes;
    StepFlows(c, s, l);
  }

  // -------------------------------------------------------- every run, every delivery

  predicate Turned(pc: Pc, why: Refusal) {
    pc.Busy? && (pc.stage == RejectMem(why) || pc.stage == RejectRow(why) || pc.stage == Committing(TurnedAway(why)))
  }

  predicate Known(s: State, id: string) {
    id in s.mem.states && id in s.rows
  }

  /** Where a refusal to be recorded stands. */
  ghost predicate NotedStage(s: State) {
    s.pc.Busy? ==>
      && s.inbox != [] && s.pc.o == s.inbox[|s.inbox| - 1]
      && (s.pc.stage.RejectRow? ==> s.pc.o.id in s.mem.states)
      && (s.pc.stage.Committing? && s.pc.stage.out.TurnedAway? && LeavesRecord(s.pc.stage.out.why) ==>
            Known(s, s.pc.o.id))
  }

  /** Every refusal to be recorded is, or its delivery is on the way to it. */
  ghost predicate NotedLog(s: State) {
    forall i :: 0 <= i < |s.log| && s.log[i].ev.Refused? ==>
                  && s.log[i].who.Delivery? && 1 <= s.log[i].who.n <= |s.inbox|
                  && (if s.pc.Busy? && s.log[i].who.n == |s.inbox| then Turned(s.pc, s.log[i].ev.why)
                      else LeavesRecord(s.log[i].ev.why) ==> Known(s, s.inbox[s.log[i].who.n - 1].id))
  }

  ghost predicate Noted(s: State) {
    NotedStage(s) && NotedLog(s)
  }

  lemma NotedStageStep(c: Config, s: State, l: Label)
    requires Usable(c) && Noted(s)
    ensures NotedStage(Next(c, s, l)) && s.rows.Keys <= Next(c, s, l).rows.Keys
  {
    hide Next, Plan, Logged, Looks, Because, Full, CreatedSince, NotedLog;
    StepFlows(c, s, l);
    StepEffect(c, s, l);
    if l.Work? && s.pc.Busy? {
      RejectPath(c, s, l);
    }
  }

  lemma NotedLogStep(c: Config, s: State, l: Label)
    requires Usable(c) && Noted(s) && s.rows.Keys <= Next(c, s, l).rows.Keys
    ensures NotedLog(Next(c, s, l))
  {
    hide Next, Plan, Logged, Comes, Because, AdmittedIds;
    var s' := Next(c, s, l);
    StepFlows(c, s, l);
    if l.Work? && s.pc.Busy? {
      RejectPath(c, s, l);
    } else if !l.Work? {
      OthersKeepPc(c, s, l);
    }
    if s'.log != s.log {
      var e := Append(c, s, s');
    }
  }

  lemma OthersKeepPc(c: Config, s: State, l: Label)
    requires Usable(c) && !l.Work?
    ensures s.pc.Busy? ==> Next(c, s, l).pc == s.pc
  {
    hide Next, Looks, WorkerMoves, StreamMoves, CacheOf;
    StepEffect(c, s, l);
  }

  lemma {:induction false} NotedAlways(c: Config, s: State, ls: seq<Label>)
    requires Usable(c) && Noted(s)
    ensures Noted(Run(c, s, ls))
    decreases |ls|
  {
    hide Next, NotedStage, NotedLog;
    if ls != [] {
      NotedStageStep(c, s, ls[0]);
      NotedLogStep(c, s, ls[0]);
      NotedAlways(c, Next(c, s, ls[0]), ls[1..]);
    }
  }

  /**
   In every interleaving, a finished delivery that was refused by a halt, a limit, a count or an
   unreadable count has its ID in memory and in the table.
   */
  lemma RefusedAreRecorded(c: Config, b: Book, now: int, ls: seq<Label>, i: nat)
    requires Usable(c)
    requires var s := Run(c, Gateway.Boot(c, b, now), ls);
             && i < |s.log| && s.log[i].ev.Refused? && !s.log[i].ev.why.BadId? && !s.log[i].ev.why.Duplicate?
             && !(s.pc.Busy? && s.log[i].who == Delivery(|s.inbox|))
    ensures var s := Run(c, Gateway.Boot(c, b, now), ls);
            && s.log[i].who.Delivery? && 1 <= s.log[i].who.n <= |s.inbox|
            && var id := s.inbox[s.log[i].who.n - 1].id; id in s.mem.states && id in s.rows
  {
    hide Run;
    NotedAlways(c, Gateway.Boot(c, b, now), ls);
  }

  // -------------------------------------------------------- from one refusal to its end

  /** No fill for the order is at work or arrives. */
  predicate Undisturbed(s: State, ls: seq<Label>, id: string) {
    && !(s.stream.StreamRow? && s.stream.fill.orderId == id)
    && forall i :: 0 <= i < |ls| && ls[i].Stream? ==> ls[i].fill.orderId != id
  }

  predicate RejectedIn(s: State, id: string) {
    id in s.mem.states && s.mem.states[id] == Rejected && id in s.rows && s.rows[id].state == Rejected
  }

  /** Nothing about the order has changed. */
  predicate SameFor(s: State, s': State, id: string) {
    && (id in s'.mem.states <==> id in s.mem.states) && (id in s'.rows <==> id in s.rows)
    && (id in s.mem.states ==> s'.mem.states[id] == s.mem.states[id])
    && (id in s.rows ==> s'.rows[id] == s.rows[id])
  }

  /** How far the refusal given in `s0` has come, as long as no other delivery has begun. */
  ghost predicate Ending(s0: State, o: Order, why: Refusal, s: State) {
    && !(s.stream.StreamRow? && s.stream.fill.orderId == o.id) && [] != s0.inbox <= s.inbox
    && (s.inbox == s0.inbox ==>
          if LeavesRecord(why) then
            || s.pc == Busy(o, RejectMem(why))
            || (s.pc == Busy(o, RejectRow(why)) && o.id in s.mem.states && s.mem.states[o.id] == Rejected)
            || ((s.pc == Busy(o, Committing(TurnedAway(why))) || !s.pc.Busy?) && RejectedIn(s, o.id))
          else (s.pc == Busy(o, Committing(TurnedAway(why))) || !s.pc.Busy?) && SameFor(s0, s, o.id))
  }

  lemma EndingWork(c: Config, s0: State, o: Order, why: Refusal, s: State, l: Label)
    requires Usable(c) && Ending(s0, o, why, s) && l.Work? && s.pc.Busy?
    ensures Ending(s0, o, why, Next(c, s, l))
  {
    RejectPath(c, s, l);
    assert Next(c, s, l).stream == s.stream by {
      hide Next, Looks, WorkerMoves;
      StepEffect(c, s, l);
    }
    hide Next;
  }

  /** A fill for another order does not touch this one. */
  lemma OtherOrdersKept(c: Config, s: State, l: Label, id: string)
    requires Usable(c) && !(l.Work? && s.pc.Busy?) && (l.Stream? ==> l.fill.orderId != id)
    requires !(s.stream.StreamRow? && s.stream.fill.orderId == id)
    ensures SameFor(s, Next(c, s, l), id)
  {
    hide WorkStep;
    if l.Work? {
      IdleStep(c, s, l);
    }
  }

  lemma EndingStep(c: Config, s0: State, o: Order, why: Refusal, s: State, l: Label)
    requires Usable(c) && Ending(s0, o, why, s) && (l.Stream? ==> l.fill.orderId != o.id)
    ensures Ending(s0, o, why, Next(c, s, l))
  {
    hide Next;
    if l.Work? && s.pc.Busy? {
      hide Ending;
      EndingWork(c, s0, o, why, s, l);
    } else {
      IdleStep(c, s, l);
      OtherOrdersKept(c, s, l, o.id);
    }
  }

  /** A step that is not the worker's inside a delivery: a new delivery begins, or the inbox stays. */
  lemma IdleStep(c: Config, s: State, l: Label)
    requires Usable(c) && !(l.Work? && s.pc.Busy?)
    ensures var s' := Next(c, s, l);
            && s.inbox <= s'.inbox && (s'.inbox == s.inbox ==> s'.pc == s.pc || (!s.pc.Busy? && !s'.pc.Busy?))
            && (l.Work? ==> s'.mem == s.mem && s'.rows == s.rows && s'.stream == s.stream)
            && (s'.stream.StreamRow? ==> s'.stream == s.stream || (l.Stream? && s'.stream.fill == l.fill))
  {
    hide Vet, Admit, Submit, Record, Settle, UpdateRow, SetMem;
  }

  lemma {:induction false} EndingAlways(c: Config, s0: State, o: Order, why: Refusal, s: State, ls: seq<Label>)
    requires Usable(c) && Ending(s0, o, why, s)
    requires forall i :: 0 <= i < |ls| && ls[i].Stream? ==> ls[i].fill.orderId != o.id
    ensures Ending(s0, o, why, Run(c, s, ls))
    decreases |ls|
  {
    hide Next, Ending;
    if ls != [] {
      EndingStep(c, s0, o, why, s, ls[0]);
      EndingAlways(c, s0, o, why, Next(c, s, ls[0]), ls[1..]);
    }
  }

  /**
   Recording is if and only if on the reason: a step that refuses an order, and then any
   interleaving up to the end of that delivery that brings no fill for it, leave the order rejected in
   memory and table, unless the ID was bad or known, and then nothing about it has changed.
   */
  lemma RecordedIffReason(c: Config, s: State, l: Label, why: Refusal, ls: seq<Label>)
    requires Usable(c) && l.Work? && s.pc.Busy? && s.inbox != [] && Undisturbed(s, ls, s.pc.o.id)
    requires Next(c, s, l).log == s.log + [Entry(Delivery(|s.inbox|), s.now, Refused(why))]
    ensures var id, s' := s.pc.o.id, Run(c, Next(c, s, l), ls);
            s'.inbox == s.inbox && !s'.pc.Busy? ==>
              if why.BadId? || why.Duplicate? then SameFor(s, s', id) else RejectedIn(s', id)
  {
    hide Next, Run, SameFor, RejectedIn;
    RefusalBegins(c, s, l, why);
    EndingAlways(c, s, s.pc.o, why, Next(c, s, l), ls);
  }

  lemma RefusalBegins(c: Config, s: State, l: Label, why: Refusal)
    requires Usable(c) && l.Work? && s.pc.Busy? && s.inbox != []
    requires !(s.stream.StreamRow? && s.stream.fill.orderId == s.pc.o.id)
    requires Next(c, s, l).log == s.log + [Entry(Delivery(|s.inbox|), s.now, Refused(why))]
    ensures Ending(s, s.pc.o, why, Next(c, s, l))
  {
    hide Next, Looks, Comes, Plan, Because, AdmittedIds;
    StepFlows(c, s, l);
    StepEffect(c, s, l);
    BusyKeepsInbox(c, s, l);
    var e := Append(c, s, Next(c, s, l));
  }

  // -------------------------------------------------------------- failed and streamed

  /** A failed submission is rejected in memory and table, its recorded quantity kept while it was active. */
  lemma FailureIsRecorded(c: Config, s: State, l: Label, l': Label)
    requires Usable(c) && l.Work? && l'.Work? && s.pc.Busy? && s.pc.stage.FailMem?
    requires s.pc.o.id in s.rows && s.pc.o.id in s.mem.states && s.mem.states[s.pc.o.id] != Rejected
    ensures var id, s' := s.pc.o.id, Next(c, Next(c, s, l), l');
            && s'.mem == s.mem.(states := s.mem.states[id := Rejected])
            && s'.rows == s.rows[id := s.rows[id].(
                 state := Rejected,
                 filledQty := if s.rows[id].state in {Pending, Submitted, PartiallyFilled} then s.rows[id].filledQty
                              else 0.0)]
            && s'.pc == Busy(s.pc.o, Committing(Broken(s.pc.stage.tried)))
  {
    hide Vet, Admit, Submit, Settle, StreamStep;
    assert s.pc.o.id in ActiveIds(s.rows) <==> s.rows[s.pc.o.id].state in {Pending, Submitted, PartiallyFilled};
  }

  /** A streamed fill sets the state it reports, FILLED if it reports none, and the quantity it carries. */
  lemma StreamedFillIsRecorded(c: Config, s: State, f: Fill, ok: bool, stop: bool)
    requires Usable(c) && s.stream.Idle? && f.orderId in s.rows
    ensures var id, s' := f.orderId, Next(c, Next(c, s, Stream(f)), StreamWork(ok, stop));
            var to := match f.status case None => Filled case Some(st) => st;
            && s'.mem == s.mem.(states := s.mem.states[id := to])
            && s'.rows == s.rows[id := s.rows[id].(state := to, filledQty := f.quantity)]
            && s'.stream == StreamPublish(f, 0) && s'.log == s.log
  {
    hide WorkStep;
  }
}
