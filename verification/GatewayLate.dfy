/** Fills the gateway has been told of and not yet published: the other half of a clean drain. */
module GatewayLate {
  import opened Exchange
  import opened Tracker
  import opened Gateway
  import opened GatewayFlow
  import opened GatewayWitness
  import opened GatewayLoops
  import GatewayTrace
  import Algo
  import Risk
  import Limiter

  // ------------------------------------------------------------------ what is owed

  predicate Positive(fill: Option<Fill>) {
    fill.Some? && fill.value.quantity > 0.0
  }

  /** The intent worker holds an answer it still has to publish. */
  ghost predicate WorkerOwes(c: Config, pc: Pc)
    requires Usable(c)
  {
    pc.Busy? &&
    match pc.stage
    case Sending(tried, _) => Plan(c, pc.o).Some? && Positive(GatewayTrace.ResultOf(c, tried))
    case AcceptMem(_, fill) => Positive(fill)
    case AcceptRow(_, fill, _) => Positive(fill)
    case FillMem(_, _) => true
    case FillRow(_, _, _) => true
    case Publishing(_, _, fails) => fails <= c.retries
    case _ => false
  }

  predicate StreamOwes(c: Config, st: StreamPc) {
    st.StreamRow? || (st.StreamPublish? && st.fails <= c.retries)
  }

  ghost predicate Owes(c: Config, s: State)
    requires Usable(c)
  {
    WorkerOwes(c, s.pc) || StreamOwes(c, s.stream)
  }

  /** Nothing new is heard from the exchange or the broker. */
  predicate NoNews(l: Label) {
    !l.Stream? && !l.Deliver? && (l.Work? ==> l.answer.None?)
  }

  ghost predicate PublishesIn(c: Config, s: State, ls: seq<Label>)
    requires Usable(c)
  {
    var log := Run(c, s, ls).log;
    exists i :: |s.log| <= i < |log| && log[i].ev.Published?
  }

  ghost predicate AllQuiet(ls: seq<Label>) {
    forall i :: 0 <= i < |ls| ==> NoNews(ls[i])
  }

  // --------------------------------------------------- if nothing, nothing is published

  /** A step that publishes nothing and leaves the worker owing nothing. */
  ghost predicate Clear(c: Config, s: State, s': State)
    requires Usable(c)
  {
    && !WorkerOwes(c, s'.pc)
    && (s'.log == s.log || exists ev: Event :: !ev.Published? && s'.log == Emit(s, ev).log)
  }

  lemma ClearGoto(c: Config, s: State, o: Order, to: Stage, ev: Event)
    requires Usable(c) && !WorkerOwes(c, Busy(o, to)) && !ev.Published?
    ensures Clear(c, s, Goto(s, o, to)) && Clear(c, s, Goto(Emit(s, ev), o, to))
  {
    hide WorkerOwes;
  }

  lemma ClearTop(c: Config, s: State, s': State, ev: Event)
    requires Usable(c) && !s'.pc.Busy? && !ev.Published? && (s'.log == s.log || s'.log == Emit(s, ev).log)
    ensures Clear(c, s, s')
  {}

  lemma VetClears(c: Config, s: State, o: Order, st: Stage, ok: bool)
    requires Usable(c) && Vetting(st)
    ensures Clear(c, s, Vet(c, s, o, st, ok))
  {
    hide Clear, Full, Risk.ValidateOrderId, Risk.CheckIntent, Emit, Goto;
    forall why
      ensures Clear(c, s, Reject(s, o, why)) && Clear(c, s, TurnAway(s, o, why))
    {
      ClearGoto(c, s, o, RejectMem(why), Refused(why));
      ClearGoto(c, s, o, Committing(TurnedAway(why)), Refused(why));
    }
    hide Reject, TurnAway;
    var to := if st.AtHalt? then AtId else if st.AtId? then AtDup else if st.AtDup? then AtRisk
              else if st.AtRisk? then AtSide(s.now) else Waiting(st.checked, s.now);
    ClearGoto(c, s, o, to, Failed);
  }

  lemma AdmitClears(c: Config, s: State, o: Order, st: Stage, stop: bool)
    requires Usable(c) && s.pc == Busy(o, st) && Admitting(st)
    ensures Clear(c, s, Admit(c, s, o, st, stop))
  {
    hide Limiter.Grants, Limiter.Take, SaveRow, AddMem, Plan;
    var s' := Admit(c, s, o, st, stop);
    assert Answers([]) == [];
    match st
    case Waiting(_, _) =>
      assert s'.log == s.log || s'.log == Emit(s, Granted).log || s'.log == Emit(s, Throttled).log;
    case AdmitMem(_, _) => assert s'.log == Emit(s, Admitted(o)).log;
    case AdmitRow(_, _) => assert s'.log == s.log;
  }

  lemma SubmitClears(c: Config, s: State, o: Order, st: Stage, stop: bool)
    requires Usable(c) && st.Sending? && !WorkerOwes(c, Busy(o, st))
    ensures Clear(c, s, Submit(c, s, o, st, None, stop))
  {
    hide Clear, Plan, Answers, Algo.Aggregate, Emit, Goto;
    var tried, next := st.tried, st.next;
    ClearGoto(c, s, o, FailMem(tried), Failed);
    if Plan(c, o).Some? {
      var result := GatewayTrace.ResultOf(c, tried);
      ClearGoto(c, s, o, AcceptMem(tried, result), Accepted(result));
      ClearGoto(c, s, o, Sending(tried, next + 1), Failed);
      if next < |Plan(c, o).value| {
        var a := Attempt(next, Plan(c, o).value[next], None);
        AnswersOneMore(tried, a);
        assert Answers(tried) + [] == Answers(tried);
        ClearGoto(c, s, o, Sending(tried + [a], next + 1), Sent(o.id, a));
      }
    }
  }

  lemma RecordClears(c: Config, s: State, o: Order, st: Stage)
    requires Usable(c) && Recording(st) && !WorkerOwes(c, Busy(o, st))
    ensures Clear(c, s, Record(c, s, o, st))
  {
    hide StateOnlyQty, UpdateRow, SaveRow, AddMem, SetMem, Changes, Plan;
  }

  lemma SettleClears(c: Config, s: State, o: Order, st: Stage, ok: bool, stop: bool)
    requires Usable(c) && Settling(st) && !WorkerOwes(c, Busy(o, st))
    ensures Clear(c, s, Settle(c, s, o, st, ok, stop))
  {
    hide Clear;
    ClearTop(c, s, Settle(c, s, o, st, ok, stop), if st.Publishing? then GaveUp else Committed(ok));
  }

  lemma WorkClears(c: Config, s: State, ok: bool, stop: bool)
    requires Usable(c) && s.pc.Busy? && !WorkerOwes(c, s.pc)
    ensures Clear(c, s, WorkStep(c, s, None, ok, stop))
  {
    hide Clear, WorkerOwes, Vet, Admit, Submit, Record, Settle;
    var o, st := s.pc.o, s.pc.stage;
    if Vetting(st) {
      VetClears(c, s, o, st, ok);
    } else if Admitting(st) {
      AdmitClears(c, s, o, st, stop);
    } else if st.Sending? {
      SubmitClears(c, s, o, st, stop);
    } else if Settling(st) {
      SettleClears(c, s, o, st, ok, stop);
    } else {
      RecordClears(c, s, o, st);
    }
  }

  ghost predicate Settled(c: Config, s: State, k: nat)
    requires Usable(c)
  {
    !Owes(c, s) && k <= |s.log| && forall i :: k <= i < |s.log| ==> !s.log[i].ev.Published?
  }

  lemma SettledStep(c: Config, s: State, l: Label, k: nat)
    requires Usable(c) && Settled(c, s, k) && NoNews(l)
    ensures Settled(c, Next(c, s, l), k)
  {
    hide WorkerOwes;
    if l.Work? && s.pc.Busy? {
      hide WorkStep;
      WorkClears(c, s, l.ok, l.stop);
      StepEffect(c, s, l);
    } else {
      hide Vet, Admit, Submit, Record, Settle, UpdateRow;
      IdleOwesNothing(c);
    }
  }

  lemma IdleOwesNothing(c: Config)
    requires Usable(c)
    ensures !WorkerOwes(c, Top) && !WorkerOwes(c, Fetching) && !WorkerOwes(c, Stopped)
  {}

  lemma {:induction false} SettledAlways(c: Config, s: State, ls: seq<Label>, k: nat)
    requires Usable(c) && Settled(c, s, k) && AllQuiet(ls)
    ensures Settled(c, Run(c, s, ls), k)
    decreases |ls|
  {
    hide Next, Settled, NoNews;
    if ls != [] {
      assert NoNews(ls[0]);
      SettledStep(c, s, ls[0], k);
      SettledAlways(c, Next(c, s, ls[0]), ls[1..], k);
    }
  }

  // ------------------------------------------------- if something, it can be published

  ghost predicate CanPublish(c: Config, s: State)
    requires Usable(c)
  {
    exists ls :: AllQuiet(ls) && PublishesIn(c, s, ls)
  }

  lemma Later(c: Config, s: State, l: Label)
    requires Usable(c) && NoNews(l) && CanPublish(c, Next(c, s, l)) && |s.log| <= |Next(c, s, l).log|
    ensures CanPublish(c, s)
  {
    hide Next, NoNews;
    var ls :| AllQuiet(ls) && PublishesIn(c, Next(c, s, l), ls);
    assert ([l] + ls)[1..] == ls;
    assert AllQuiet([l] + ls) && PublishesIn(c, s, [l] + ls);
  }

  lemma AtOnce(c: Config, s: State, l: Label)
    requires Usable(c) && NoNews(l)
    requires |Next(c, s, l).log| == |s.log| + 1 && Next(c, s, l).log[|s.log|].ev.Published?
    ensures CanPublish(c, s)
  {
    hide Next, NoNews;
    assert [l][1..] == [];
    assert Run(c, s, [l]) == Next(c, s, l);
    assert AllQuiet([l]) && PublishesIn(c, s, [l]);
  }

  lemma PublishingCan(c: Config, s: State)
    requires Usable(c) && s.pc.Busy? && s.pc.stage.Publishing? && s.pc.stage.fails <= c.retries
    ensures CanPublish(c, s)
  {
    hide CanPublish, Vet, Admit, Submit, Record, StreamStep;
    AtOnce(c, s, Proceed);
  }

  lemma FillRowCan(c: Config, s: State)
    requires Usable(c) && s.pc.Busy? && s.pc.stage.FillRow?
    ensures CanPublish(c, s)
  {
    hide CanPublish, Vet, Admit, Submit, Settle, StreamStep, UpdateRow;
    PublishingCan(c, Next(c, s, Proceed));
    Later(c, s, Proceed);
  }

  lemma FillMemCan(c: Config, s: State)
    requires Usable(c) && s.pc.Busy? && s.pc.stage.FillMem?
    ensures CanPublish(c, s)
  {
    hide CanPublish, Vet, Admit, Submit, Settle, StreamStep, StateOnlyQty, SetMem, Changes;
    var s' := Next(c, s, Proceed);
    if s'.pc.stage.FillRow? {
      FillRowCan(c, s');
    } else {
      PublishingCan(c, s');
    }
    Later(c, s, Proceed);
  }

  lemma AcceptRowCan(c: Config, s: State)
    requires Usable(c) && s.pc.Busy? && s.pc.stage.AcceptRow? && Positive(s.pc.stage.fill)
    ensures CanPublish(c, s)
  {
    hide CanPublish, Vet, Admit, Submit, Settle, StreamStep, UpdateRow;
    FillMemCan(c, Next(c, s, Proceed));
    Later(c, s, Proceed);
  }

  lemma AcceptMemCan(c: Config, s: State)
    requires Usable(c) && s.pc.Busy? && s.pc.stage.AcceptMem? && Positive(s.pc.stage.fill)
    ensures CanPublish(c, s)
  {
    hide CanPublish, Vet, Admit, Submit, Settle, StreamStep, StateOnlyQty, SetMem, Changes;
    var s' := Next(c, s, Proceed);
    if s'.pc.stage.AcceptRow? {
      AcceptRowCan(c, s');
    } else {
      FillMemCan(c, s');
    }
    Later(c, s, Proceed);
  }

  lemma SendingCan(c: Config, s: State)
    requires Usable(c) && s.pc.Busy? && s.pc.stage.Sending? && WorkerOwes(c, s.pc)
    ensures CanPublish(c, s)
    decreases if Plan(c, s.pc.o).Some? then |Plan(c, s.pc.o).value| - s.pc.stage.next else 0
  {
    hide CanPublish, Next, Plan, Answers, Algo.Aggregate, Emit;
    var o, tried, next := s.pc.o, s.pc.stage.tried, s.pc.stage.next;
    SendingStep(c, s, None, true, false);
    var s' := Next(c, s, Proceed);
    if next < |Plan(c, o).value| {
      var a := Attempt(next, Plan(c, o).value[next], None);
      AnswersOneMore(tried, a);
      assert Answers(tried) + [] == Answers(tried);
      SendingCan(c, s');
    } else {
      AcceptMemCan(c, s');
    }
    LogGrows(c, s, Proceed);
    Later(c, s, Proceed);
  }

  lemma LogGrows(c: Config, s: State, l: Label)
    requires Usable(c) && l.Work? && s.pc.Busy? && s.pc.stage.Sending?
    ensures |s.log| <= |Next(c, s, l).log|
  {
    hide Next, Plan, Answers, Algo.Aggregate;
    SendingStep(c, s, l.answer, l.ok, l.stop);
  }

  lemma StreamCan(c: Config, s: State)
    requires Usable(c) && StreamOwes(c, s.stream)
    ensures CanPublish(c, s)
  {
    hide CanPublish, WorkStep, UpdateRow;
    var l := StreamWork(true, false);
    if s.stream.StreamRow? {
      AtOnce(c, Next(c, s, l), l);
      Later(c, s, l);
    } else {
      AtOnce(c, s, l);
    }
  }

  lemma OwedCanBePublished(c: Config, s: State)
    requires Usable(c) && Owes(c, s)
    ensures CanPublish(c, s)
  {
    hide CanPublish, Plan, Positive, GatewayTrace.ResultOf;
    if StreamOwes(c, s.stream) {
      StreamCan(c, s);
    } else {
      match s.pc.stage
      case Sending(_, _) => SendingCan(c, s);
      case AcceptMem(_, _) => AcceptMemCan(c, s);
      case AcceptRow(_, _, _) => AcceptRowCan(c, s);
      case FillMem(_, _) => FillMemCan(c, s);
      case FillRow(_, _, _) => FillRowCan(c, s);
      case Publishing(_, _, _) => PublishingCan(c, s);
    }
  }

  /**
   In any state whatever: as long as nothing new is heard from the exchange or the broker, no
   continuation publishes anything exactly when no worker holds a fill it has still to publish.
   */
  lemma NothingLateIff(c: Config, s: State)
    requires Usable(c)
    ensures (forall ls :: AllQuiet(ls) ==> !PublishesIn(c, s, ls)) <==> !Owes(c, s)
  {
    hide Run, Owes;
    if Owes(c, s) {
      OwedCanBePublished(c, s);
    } else {
      forall ls | AllQuiet(ls)
        ensures !PublishesIn(c, s, ls)
      {
        SettledAlways(c, s, ls, |s.log|);
      }
    }
  }

  // ------------------------------------------------------------------------ a witness

  /**
   A drain that begins while a filled order is about to be published finds no active order.  The
   shutdown that follows lets the publish be given up after one failure, and the fill is lost.
   */
  lemma ZeroActiveMayOweAFill(o: Order, f: Fill)
    requires Risk.ValidateOrderId(o.id).None? && f.orderId == o.id && f.quantity > 0.0
    ensures var c := Lenient(None);
            var s := Run(c, Empty(c), ToPublish(o, f) + [CloseIntake]);
            var s' := Run(c, s, [Shutdown, Work(None, false, false), Work(None, true, true)]);
            && !s.intake && MemoryActive(s.mem) == {} && Owes(c, s)
            && s'.pc.Top? && forall i :: 0 <= i < |s'.log| ==> s'.log[i].ev.Published? ==> !s'.log[i].ev.ok
  {
    hide Run, Vet, Admit, Submit, Record, StreamStep;
    var c := Lenient(None);
    ReachPublish(o, f);
    RunSplits(c, Empty(c), ToPublish(o, f), [CloseIntake]);
    var s0 := Run(c, Empty(c), ToPublish(o, f));
    var s := s0.(intake := false);
    Walk(c, [s0, s], [CloseIntake]);
    var s1 := s.(alive := false);
    var s2 := Next(c, s1, Work(None, false, false));
    var s3 := Next(c, s2, Work(None, true, true));
    Walk(c, [s, s1, s2, s3], [Shutdown, Work(None, false, false), Work(None, true, true)]);
  }
}
