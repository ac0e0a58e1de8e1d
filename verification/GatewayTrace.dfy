/** The words a delivery can leave in the log, over every interleaving. */
module GatewayTrace {
  import opened Exchange
  import opened Tracker
  import opened Gateway
  import Risk
  import Limiter
  import Algo

  /** One delivery's own events, with the other worker and the other deliveries projected out. */
  function Proj(log: seq<Entry>, d: nat): seq<Event> {
    if log == [] then []
    else
      var e := log[|log| - 1];
      Proj(log[..|log| - 1], d) + if e.who == Delivery(d) then [e.ev] else []
  }

  lemma ProjSnoc(log: seq<Entry>, e: Entry, d: nat)
    ensures Proj(log + [e], d) == Proj(log, d) + if e.who == Delivery(d) then [e.ev] else []
  {
    assert (log + [e])[..|log|] == log;
  }

  // ------------------------------------------------------------------- the words

  function SentAll(id: string, tried: seq<Attempt>): seq<Event> {
    if tried == [] then []
    else SentAll(id, tried[..|tried| - 1]) + [Sent(id, tried[|tried| - 1])]
  }

  function Failures(f: Fill, n: nat): seq<Event> {
    if n == 0 then [] else Failures(f, n - 1) + [Published(f, false)]
  }

  /** Fetched, granted, admitted, and the exchange calls so far. */
  function Submitting(o: Order, tried: seq<Attempt>): seq<Event> {
    [Fetched(o), Granted, Admitted(o)] + SentAll(o.id, tried)
  }

  /** The word of a delivery that is about to commit. */
  function Spell(o: Order, out: Outcome): seq<Event> {
    match out
    case TurnedAway(why) => [Fetched(o), Refused(why)]
    case Broken(tried) => Submitting(o, tried) + [Failed]
    case Resting(tried, fill) => Submitting(o, tried) + [Accepted(fill)]
    case Confirmed(tried, f, fails) =>
      Submitting(o, tried) + [Accepted(Some(f))] + Failures(f, fails) + [Published(f, true)]
  }

  /** The order passed the checks that depend on it alone. */
  predicate Vetted(c: Config, o: Order) {
    Risk.ValidateOrderId(o.id).None? && Risk.CheckIntent(c.policy, o).None?
  }

  /** An ID or a limit is named exactly if the order breaks it; a halt is noticed before either is looked at. */
  predicate RightlyRefused(c: Config, o: Order, why: Refusal) {
    match why
    case Halted => true
    case BadId(error) => Risk.ValidateOrderId(o.id) == Some(error)
    case Duplicate => Risk.ValidateOrderId(o.id).None?
    case OverPolicy(limit) => Risk.ValidateOrderId(o.id).None? && Risk.CheckIntent(c.policy, o) == Some(limit)
    case Unreachable => Vetted(c, o)
    case DailyCount => Vetted(c, o)
    case SideCount => Vetted(c, o) && ((o.side.Buy? && c.maxBuys > 0) || (o.side.Sell? && c.maxSells > 0))
  }

  /** Calls follow the plan: each slice at most once, in order, with the plan's order; only a vetted order is sent. */
  ghost predicate Follows(c: Config, o: Order, tried: seq<Attempt>)
    requires Usable(c)
  {
    && Vetted(c, o)
    && (tried != [] ==> Plan(c, o).Some?)
    && (forall k :: 0 <= k < |tried| ==>
                      && tried[k].index < |Plan(c, o).value|
                      && tried[k].child == Plan(c, o).value[tried[k].index])
    && (forall j, k :: 0 <= j < k < |tried| ==> tried[j].index < tried[k].index)
  }

  /** A slice with nothing in it is skipped. */
  predicate Wanted(c: Config, child: Order) {
    c.algo.None? || child.quantity > 0.0
  }

  ghost predicate Called(tried: seq<Attempt>, i: nat) {
    exists k :: 0 <= k < |tried| && tried[k].index == i
  }

  /** Of the first `next` orders of the plan, exactly the wanted ones were called. */
  ghost predicate Covered(c: Config, o: Order, tried: seq<Attempt>, next: nat)
    requires Usable(c)
  {
    && Plan(c, o).Some? && next <= |Plan(c, o).value|
    && forall i :: 0 <= i < next ==> (Called(tried, i) <==> Wanted(c, Plan(c, o).value[i]))
  }

  ghost predicate FullyCovered(c: Config, o: Order, tried: seq<Attempt>)
    requires Usable(c)
  {
    Plan(c, o).Some? && Covered(c, o, tried, |Plan(c, o).value|)
  }

  /** The whole plan was carried out, and this is what came back. */
  ghost predicate Answered(c: Config, o: Order, tried: seq<Attempt>, fill: Option<Fill>)
    requires Usable(c)
  {
    Follows(c, o, tried) && FullyCovered(c, o, tried) && fill == ResultOf(c, tried)
  }

  /** The slices before some later one were dealt with, and no others. */
  ghost predicate CutShort(c: Config, o: Order, tried: seq<Attempt>)
    requires Usable(c)
  {
    Plan(c, o).Some? && exists next :: 0 < next < |Plan(c, o).value| && CutAt(c, o, tried, next)
  }

  ghost predicate CutAt(c: Config, o: Order, tried: seq<Attempt>, next: nat)
    requires Usable(c)
  {
    Covered(c, o, tried, next) && forall k :: 0 <= k < |tried| ==> tried[k].index < next
  }

  /** A failed submission: the one call failed, the algorithm is unknown, or the slicing was cut short. */
  ghost predicate Fails(c: Config, o: Order, tried: seq<Attempt>)
    requires Usable(c)
  {
    && Follows(c, o, tried)
    && (if c.algo.None? then FullyCovered(c, o, tried) && ResultOf(c, tried).None?
        else (Plan(c, o).None? && tried == []) || CutShort(c, o, tried))
  }

  /** What the exchange's answers amount to: the one answer, or the aggregate of the slices. */
  function ResultOf(c: Config, tried: seq<Attempt>): Option<Fill> {
    var fills := Answers(tried);
    if c.algo.None? then if fills == [] then None else Some(fills[0]) else Algo.Aggregate(fills)
  }

  ghost predicate Filling(c: Config, o: Order, tried: seq<Attempt>, f: Fill)
    requires Usable(c)
  {
    Answered(c, o, tried, Some(f)) && f.quantity > 0.0
  }

  ghost predicate Proper(c: Config, o: Order, out: Outcome)
    requires Usable(c)
  {
    match out
    case TurnedAway(why) => RightlyRefused(c, o, why)
    case Broken(tried) => Fails(c, o, tried)
    case Resting(tried, fill) => Answered(c, o, tried, fill) && (fill.Some? ==> fill.value.quantity <= 0.0)
    case Confirmed(tried, f, fails) => Filling(c, o, tried, f) && fails <= c.retries
  }

  /** How a finished delivery of `o` can have gone. */
  datatype Story =
    | Done(out: Outcome, committed: bool)                          // one commit attempt, last
    | Cancelled                                                    // gave up waiting for the limiter: no commit
    | Lost(tried: seq<Attempt>, fill: Fill, fails: nat)            // fill never confirmed: no commit

  function Tell(o: Order, story: Story): seq<Event> {
    match story
    case Done(out, committed) => Spell(o, out) + [Committed(committed)]
    case Cancelled => [Fetched(o), Throttled]
    case Lost(tried, f, fails) => Submitting(o, tried) + [Accepted(Some(f))] + Failures(f, fails) + [GaveUp]
  }

  ghost predicate Plausible(c: Config, o: Order, story: Story)
    requires Usable(c)
  {
    match story
    case Done(out, _) => Proper(c, o, out)
    case Cancelled => Vetted(c, o)
    case Lost(tried, f, fails) =>
      Filling(c, o, tried, f) && 1 <= fails <= c.retries + 1
  }

  ghost predicate Complete(c: Config, o: Order, word: seq<Event>)
    requires Usable(c)
  {
    exists story :: Plausible(c, o, story) && word == Tell(o, story)
  }

  // ---------------------------------------------------------------- the invariant

  /** The word of the delivery in progress, by where its worker stands. */
  function Word(o: Order, st: Stage): seq<Event> {
    match st
    case AtHalt => [Fetched(o)]
    case AtId => [Fetched(o)]
    case AtDup => [Fetched(o)]
    case AtRisk => [Fetched(o)]
    case AtSide(_) => [Fetched(o)]
    case Waiting(_, _) => [Fetched(o)]
    case AdmitMem(_, _) => [Fetched(o), Granted]
    case AdmitRow(_, _) => Submitting(o, [])
    case Sending(tried, _) => Submitting(o, tried)
    case FailMem(tried) => Submitting(o, tried) + [Failed]
    case FailRow(tried, _) => Submitting(o, tried) + [Failed]
    case AcceptMem(tried, fill) => Submitting(o, tried) + [Accepted(fill)]
    case AcceptRow(tried, fill, _) => Submitting(o, tried) + [Accepted(fill)]
    case FillMem(tried, f) => Submitting(o, tried) + [Accepted(Some(f))]
    case FillRow(tried, f, _) => Submitting(o, tried) + [Accepted(Some(f))]
    case Publishing(tried, f, fails) => Submitting(o, tried) + [Accepted(Some(f))] + Failures(f, fails)
    case RejectMem(why) => [Fetched(o), Refused(why)]
    case RejectRow(why) => [Fetched(o), Refused(why)]
    case Committing(out) => Spell(o, out)
  }

  ghost predicate StageOk(c: Config, o: Order, st: Stage)
    requires Usable(c)
  {
    match st
    case AtHalt => true
    case AtId => true
    case AtDup => Risk.ValidateOrderId(o.id).None?
    case AtRisk => Risk.ValidateOrderId(o.id).None?
    case AtSide(_) => Vetted(c, o)
    case Waiting(_, _) => Vetted(c, o)
    case AdmitMem(_, _) => Vetted(c, o)
    case AdmitRow(_, _) => Vetted(c, o)
    case Sending(tried, next) =>
      Follows(c, o, tried) && (if Plan(c, o).Some? then CutAt(c, o, tried, next) else tried == [])
    case FailMem(tried) => Fails(c, o, tried)
    case FailRow(tried, _) => Fails(c, o, tried)
    case AcceptMem(tried, fill) => Answered(c, o, tried, fill)
    case AcceptRow(tried, fill, _) => Answered(c, o, tried, fill)
    case FillMem(tried, f) => Filling(c, o, tried, f)
    case FillRow(tried, f, _) => Filling(c, o, tried, f)
    case Publishing(tried, f, fails) => Filling(c, o, tried, f) && fails <= c.retries + 1
    case RejectMem(why) => RightlyRefused(c, o, why) && LeavesRecord(why)
    case RejectRow(why) => RightlyRefused(c, o, why) && LeavesRecord(why)
    case Committing(out) => Proper(c, o, out)
  }

  /** What one worker step from a stage does to the word: it goes on, or the delivery is finished. */
  ghost predicate Advances(c: Config, o: Order, st: Stage, added: seq<Event>, pc: Pc)
    requires Usable(c)
  {
    if pc.Top? then Complete(c, o, Word(o, st) + added)
    else pc.Busy? && pc.o == o && StageOk(c, o, pc.stage) && Word(o, pc.stage) == Word(o, st) + added
  }

  /** A worker step logs at most one event of its own delivery, and the word advances by it. */
  ghost predicate StepOk(c: Config, s: State, o: Order, st: Stage, s': State)
    requires Usable(c)
  {
    && s'.inbox == s.inbox
    && (if s'.log == s.log then Advances(c, o, st, [], s'.pc)
        else
          && |s'.log| == |s.log| + 1 && s'.log[..|s.log|] == s.log
          && s'.log[|s.log|].who == Delivery(|s.inbox|)
          && Advances(c, o, st, [s'.log[|s.log|].ev], s'.pc))
  }

  lemma SilentStep(c: Config, s: State, o: Order, st: Stage, s': State)
    requires Usable(c) && s'.inbox == s.inbox && s'.log == s.log
    requires s'.pc.Busy? && s'.pc.o == o && StageOk(c, o, s'.pc.stage) && Word(o, s'.pc.stage) == Word(o, st)
    ensures StepOk(c, s, o, st, s')
  {
    assert Word(o, st) + [] == Word(o, st);
  }

  lemma LoudStep(c: Config, s: State, o: Order, st: Stage, s': State, ev: Event)
    requires Usable(c) && s'.inbox == s.inbox && s'.log == Emit(s, ev).log
    requires Advances(c, o, st, [ev], s'.pc)
    ensures StepOk(c, s, o, st, s')
  {}

  lemma RefusalSteps(c: Config, s: State, o: Order, st: Stage, why: Refusal)
    requires Usable(c) && Vetting(st) && RightlyRefused(c, o, why)
    ensures LeavesRecord(why) ==> StepOk(c, s, o, st, Reject(s, o, why))
    ensures StepOk(c, s, o, st, TurnAway(s, o, why))
  {
    hide StepOk, RightlyRefused;
    if LeavesRecord(why) {
      LoudStep(c, s, o, st, Reject(s, o, why), Refused(why));
    }
    LoudStep(c, s, o, st, TurnAway(s, o, why), Refused(why));
  }

  lemma ScreenSteps(c: Config, s: State, o: Order, st: Stage, ok: bool)
    requires Usable(c) && StageOk(c, o, st) && (st.AtHalt? || st.AtId? || st.AtDup?)
    ensures StepOk(c, s, o, st, Vet(c, s, o, st, ok))
  {
    hide StepOk, Full, Risk.ValidateOrderId, Risk.CheckIntent, Reject, TurnAway;
    var error := Risk.ValidateOrderId(o.id);
    if st.AtHalt? && s.halted {
      RefusalSteps(c, s, o, st, Halted);
    } else if st.AtId? && error.Some? {
      RefusalSteps(c, s, o, st, BadId(error.value));
    } else if st.AtDup? && o.id in s.mem.states {
      RefusalSteps(c, s, o, st, Duplicate);
    } else {
      SilentStep(c, s, o, st, Vet(c, s, o, st, ok));
    }
  }

  lemma LimitSteps(c: Config, s: State, o: Order, st: Stage, ok: bool)
    requires Usable(c) && StageOk(c, o, st) && (st.AtRisk? || st.AtSide?)
    ensures StepOk(c, s, o, st, Vet(c, s, o, st, ok))
  {
    hide StepOk, Full, Risk.ValidateOrderId, Risk.CheckIntent, Reject, TurnAway;
    var limit, cap := Risk.CheckIntent(c.policy, o), SideCap(c, o.side);
    if st.AtRisk? && limit.Some? {
      RefusalSteps(c, s, o, st, OverPolicy(limit.value));
    } else if !ok && (st.AtRisk? || cap > 0) {
      RefusalSteps(c, s, o, st, Unreachable);
    } else if st.AtRisk? && Full(s.rows, s.now, None, c.maxDaily) {
      RefusalSteps(c, s, o, st, DailyCount);
    } else if st.AtSide? && cap > 0 && Full(s.rows, s.now, Some(o.side), cap) {
      RefusalSteps(c, s, o, st, SideCount);
    } else {
      SilentStep(c, s, o, st, Vet(c, s, o, st, ok));
    }
  }

  lemma WaitSteps(c: Config, s: State, o: Order, st: Stage, stop: bool)
    requires Usable(c) && Vetted(c, o) && s.pc == Busy(o, st) && st.Waiting?
    ensures var s' := Admit(c, s, o, st, stop);
            StepOk(c, s, o, st, s') || (s'.pc == s.pc && s'.log == s.log && s'.inbox == s.inbox)
  {
    hide StepOk, Limiter.Grants, Limiter.Take, Vetted, Plan;
    var s' := Admit(c, s, o, st, stop);
    if s'.pc.Top? {
      assert Tell(o, Cancelled) == [Fetched(o)] + [Throttled] && Plausible(c, o, Cancelled);
      LoudStep(c, s, o, st, s', Throttled);
    } else if s'.log != s.log {
      LoudStep(c, s, o, st, s', Granted);
    }
  }

  lemma AdmitSteps(c: Config, s: State, o: Order, st: Stage, stop: bool)
    requires Usable(c) && Vetted(c, o) && s.pc == Busy(o, st) && (st.AdmitMem? || st.AdmitRow?)
    ensures StepOk(c, s, o, st, Admit(c, s, o, st, stop))
  {
    hide StepOk, SaveRow, AddMem, Vetted, Plan;
    var s' := Admit(c, s, o, st, stop);
    if st.AdmitMem? {
      assert Submitting(o, []) == [Fetched(o), Granted] + [Admitted(o)];
      LoudStep(c, s, o, st, s', Admitted(o));
    } else {
      SilentStep(c, s, o, st, s');
    }
  }

  lemma FollowsOneMore(c: Config, o: Order, tried: seq<Attempt>, next: nat, answer: Option<Fill>)
    requires Usable(c) && StageOk(c, o, Sending(tried, next))
    requires Plan(c, o).Some? && next < |Plan(c, o).value| && Wanted(c, Plan(c, o).value[next])
    ensures StageOk(c, o, Sending(tried + [Attempt(next, Plan(c, o).value[next], answer)], next + 1))
  {
    hide Plan, Vetted, Called;
    var a := Attempt(next, Plan(c, o).value[next], answer);
    forall i | 0 <= i < next + 1
      ensures Called(tried + [a], i) <==> Called(tried, i) || i == next
    {
      CalledOneMore(tried, a, i);
    }
  }

  lemma CalledOneMore(tried: seq<Attempt>, a: Attempt, i: nat)
    ensures Called(tried + [a], i) <==> Called(tried, i) || i == a.index
  {
    if Called(tried, i) {
      var k :| 0 <= k < |tried| && tried[k].index == i;
      assert (tried + [a])[k].index == i;
    }
    assert (tried + [a])[|tried|] == a;
  }

  lemma SkippedOneMore(c: Config, o: Order, tried: seq<Attempt>, next: nat)
    requires Usable(c) && StageOk(c, o, Sending(tried, next))
    requires Plan(c, o).Some? && next < |Plan(c, o).value| && !Wanted(c, Plan(c, o).value[next])
    ensures StageOk(c, o, Sending(tried, next + 1))
  {
    hide Plan, Vetted;
  }

  lemma DirectPlan(c: Config, o: Order)
    requires Usable(c) && c.algo.None?
    ensures Plan(c, o).Some?
  {}

  lemma SentOneMore(o: Order, tried: seq<Attempt>, a: Attempt)
    ensures Submitting(o, tried + [a]) == Submitting(o, tried) + [Sent(o.id, a)]
  {
    assert (tried + [a])[..|tried|] == tried;
  }

  lemma CallSteps(c: Config, s: State, o: Order, st: Stage, answer: Option<Fill>)
    requires Usable(c) && st.Sending? && StageOk(c, o, st)
    requires Plan(c, o).Some? && st.next < |Plan(c, o).value| && Wanted(c, Plan(c, o).value[st.next])
    ensures var a := Attempt(st.next, Plan(c, o).value[st.next], answer);
            StepOk(c, s, o, st, Goto(Emit(s, Sent(o.id, a)), o, Sending(st.tried + [a], st.next + 1)))
  {
    hide StepOk, Plan, Submitting, StageOk;
    var a := Attempt(st.next, Plan(c, o).value[st.next], answer);
    FollowsOneMore(c, o, st.tried, st.next, answer);
    SentOneMore(o, st.tried, a);
    LoudStep(c, s, o, st, Goto(Emit(s, Sent(o.id, a)), o, Sending(st.tried + [a], st.next + 1)), Sent(o.id, a));
  }

  lemma AllCalled(c: Config, o: Order, tried: seq<Attempt>, next: nat)
    requires Usable(c) && StageOk(c, o, Sending(tried, next)) && Plan(c, o).Some? && next >= |Plan(c, o).value|
    ensures FullyCovered(c, o, tried)
  {
    hide Plan, Vetted;
  }

  lemma FailSteps(c: Config, s: State, o: Order, st: Stage)
    requires Usable(c) && st.Sending? && Fails(c, o, st.tried)
    ensures StepOk(c, s, o, st, Goto(Emit(s, Failed), o, FailMem(st.tried)))
  {
    hide StepOk, Plan, Submitting, Fails;
    LoudStep(c, s, o, st, Goto(Emit(s, Failed), o, FailMem(st.tried)), Failed);
  }

  lemma AnswerSteps(c: Config, s: State, o: Order, st: Stage, fill: Option<Fill>)
    requires Usable(c) && st.Sending? && Answered(c, o, st.tried, fill)
    ensures StepOk(c, s, o, st, Goto(Emit(s, Accepted(fill)), o, AcceptMem(st.tried, fill)))
  {
    hide StepOk, Plan, Submitting, Answered;
    LoudStep(c, s, o, st, Goto(Emit(s, Accepted(fill)), o, AcceptMem(st.tried, fill)), Accepted(fill));
  }

  lemma SubmitSteps(c: Config, s: State, o: Order, st: Stage, answer: Option<Fill>, stop: bool)
    requires Usable(c) && st.Sending? && StageOk(c, o, st)
    ensures StepOk(c, s, o, st, Submit(c, s, o, st, answer, stop))
  {
    hide StepOk, Plan, Word, Answers, Follows, FullyCovered, Algo.Aggregate;
    var s' := Submit(c, s, o, st, answer, stop);
    if c.algo.None? {
      DirectPlan(c, o);
    }
    if Plan(c, o).Some? && st.next >= |Plan(c, o).value| {
      AllCalled(c, o, st.tried, st.next);
    }
    if s'.pc.stage.FailMem? {
      FailSteps(c, s, o, st);
    } else if s'.pc.stage.AcceptMem? {
      AnswerSteps(c, s, o, st, ResultOf(c, st.tried));
    } else if s'.pc.stage.tried == st.tried {
      SkippedOneMore(c, o, st.tried, st.next);
      SameWord(o, st.tried, st.next);
      SilentStep(c, s, o, st, s');
    } else {
      CallSteps(c, s, o, st, answer);
    }
  }

  lemma SameWord(o: Order, tried: seq<Attempt>, next: nat)
    ensures Word(o, Sending(tried, next)) == Word(o, Sending(tried, next + 1))
  {}

  /** A step that writes to memory or the table and goes on without a word. */
  lemma WriteStep(c: Config, s: State, o: Order, st: Stage, mem: Memory, rows: Rows, to: Stage)
    requires Usable(c) && StageOk(c, o, to) && Word(o, to) == Word(o, st)
    ensures StepOk(c, s, o, st, Goto(s.(mem := mem, rows := rows), o, to))
  {
    hide StepOk, StageOk, Word;
    SilentStep(c, s, o, st, Goto(s.(mem := mem, rows := rows), o, to));
  }

  lemma FailureSteps(c: Config, s: State, o: Order, st: Stage)
    requires Usable(c) && StageOk(c, o, st) && (st.FailMem? || st.FailRow?)
    ensures StepOk(c, s, o, st, Record(c, s, o, st))
  {
    hide StepOk, Fails, Submitting, StateOnlyQty, UpdateRow, SetMem, Changes;
    var s' := Record(c, s, o, st);
    WriteStep(c, s, o, st, s'.mem, s'.rows, s'.pc.stage);
  }

  lemma RejectSteps(c: Config, s: State, o: Order, st: Stage)
    requires Usable(c) && StageOk(c, o, st) && (st.RejectMem? || st.RejectRow?)
    ensures StepOk(c, s, o, st, Record(c, s, o, st))
  {
    hide StepOk, RightlyRefused, SaveRow, AddMem;
    var s' := Record(c, s, o, st);
    WriteStep(c, s, o, st, s'.mem, s'.rows, s'.pc.stage);
  }

  lemma AcceptSteps(c: Config, s: State, o: Order, st: Stage)
    requires Usable(c) && StageOk(c, o, st)
    requires st.AcceptMem? || st.AcceptRow?
    ensures StepOk(c, s, o, st, Record(c, s, o, st))
  {
    hide StepOk, Answered, Submitting, StateOnlyQty, UpdateRow, SetMem, Changes;
    var s' := Record(c, s, o, st);
    WriteStep(c, s, o, st, s'.mem, s'.rows, s'.pc.stage);
  }

  lemma FillSteps(c: Config, s: State, o: Order, st: Stage)
    requires Usable(c) && StageOk(c, o, st)
    requires st.FillMem? || st.FillRow?
    ensures StepOk(c, s, o, st, Record(c, s, o, st))
  {
    hide StepOk, Filling, Submitting, StateOnlyQty, UpdateRow, SetMem, Changes;
    var front := Submitting(o, st.tried) + [Accepted(Some(st.done))];
    assert Failures(st.done, 0) == [] && front + [] == front;
    var s' := Record(c, s, o, st);
    WriteStep(c, s, o, st, s'.mem, s'.rows, s'.pc.stage);
  }

  lemma GiveUpSteps(c: Config, s: State, o: Order, st: Stage)
    requires Usable(c) && st.Publishing? && StageOk(c, o, st) && st.fails >= 1
    ensures StepOk(c, s, o, st, Emit(s, GaveUp).(pc := Top))
  {
    hide StepOk, Filling, Submitting, Failures;
    var story := Lost(st.tried, st.done, st.fails);
    assert Plausible(c, o, story) && Tell(o, story) == Word(o, st) + [GaveUp];
    LoudStep(c, s, o, st, Emit(s, GaveUp).(pc := Top), GaveUp);
  }

  lemma AttemptSteps(c: Config, s: State, o: Order, st: Stage, ok: bool)
    requires Usable(c) && st.Publishing? && StageOk(c, o, st) && st.fails <= c.retries
    ensures var to := if ok then Committing(Confirmed(st.tried, st.done, st.fails))
                      else Publishing(st.tried, st.done, st.fails + 1);
            StepOk(c, s, o, st, Goto(Emit(s, Published(st.done, ok)), o, to))
  {
    hide StepOk, Filling, Submitting;
    var f, fails := st.done, st.fails;
    var front := Submitting(o, st.tried) + [Accepted(Some(f))];
    assert front + Failures(f, fails + 1) == (front + Failures(f, fails)) + [Published(f, false)];
    var to := if ok then Committing(Confirmed(st.tried, f, fails)) else Publishing(st.tried, f, fails + 1);
    LoudStep(c, s, o, st, Goto(Emit(s, Published(f, ok)), o, to), Published(f, ok));
  }

  lemma PublishSteps(c: Config, s: State, o: Order, st: Stage, ok: bool, stop: bool)
    requires Usable(c) && st.Publishing? && StageOk(c, o, st)
    ensures StepOk(c, s, o, st, Settle(c, s, o, st, ok, stop))
  {
    hide StepOk, Filling, Word, Emit, Goto;
    if st.fails > c.retries || (st.fails > 0 && !s.alive && stop) {
      GiveUpSteps(c, s, o, st);
    } else {
      AttemptSteps(c, s, o, st, ok);
    }
  }

  lemma CommitSteps(c: Config, s: State, o: Order, st: Stage, ok: bool, stop: bool)
    requires Usable(c) && st.Committing? && StageOk(c, o, st)
    ensures StepOk(c, s, o, st, Settle(c, s, o, st, ok, stop))
  {
    hide StepOk, Proper, Spell;
    var story := Done(st.out, ok);
    assert Plausible(c, o, story) && Tell(o, story) == Word(o, st) + [Committed(ok)];
    LoudStep(c, s, o, st, Settle(c, s, o, st, ok, stop), Committed(ok));
  }

  lemma WaitingVetted(c: Config, o: Order, st: Stage)
    requires Usable(c) && Admitting(st) && StageOk(c, o, st)
    ensures Vetted(c, o)
  {}

  lemma WorkSteps(c: Config, s: State, answer: Option<Fill>, ok: bool, stop: bool)
    requires Usable(c) && s.pc.Busy? && StageOk(c, s.pc.o, s.pc.stage)
    ensures var s' := WorkStep(c, s, answer, ok, stop);
            || StepOk(c, s, s.pc.o, s.pc.stage, s')
            || (s'.pc == s.pc && s'.log == s.log && s'.inbox == s.inbox)
  {
    hide StepOk, Vet, Admit, Submit, Record, Settle, StageOk;
    var o, st := s.pc.o, s.pc.stage;
    if st.AtHalt? || st.AtId? || st.AtDup? {
      ScreenSteps(c, s, o, st, ok);
    } else if Vetting(st) {
      LimitSteps(c, s, o, st, ok);
    } else if st.Waiting? {
      WaitingVetted(c, o, st);
      WaitSteps(c, s, o, st, stop);
    } else if Admitting(st) {
      WaitingVetted(c, o, st);
      AdmitSteps(c, s, o, st, stop);
    } else if st.Sending? {
      SubmitSteps(c, s, o, st, answer, stop);
    } else if st.Publishing? {
      PublishSteps(c, s, o, st, ok, stop);
    } else if st.Committing? {
      CommitSteps(c, s, o, st, ok, stop);
    } else if st.AcceptMem? || st.AcceptRow? {
      AcceptSteps(c, s, o, st);
    } else if st.FillMem? || st.FillRow? {
      FillSteps(c, s, o, st);
    } else if st.FailMem? || st.FailRow? {
      FailureSteps(c, s, o, st);
    } else {
      RejectSteps(c, s, o, st);
    }
  }

  // ------------------------------------------------------------------ whole runs

  ghost predicate Told(c: Config, s: State)
    requires Usable(c)
  {
    && (forall i :: 0 <= i < |s.log| && s.log[i].who.Delivery? ==> 1 <= s.log[i].who.n <= |s.inbox|)
    && (s.pc.Busy? ==>
          && s.inbox != [] && s.pc.o == s.inbox[|s.inbox| - 1]
          && StageOk(c, s.pc.o, s.pc.stage)
          && Proj(s.log, |s.inbox|) == Word(s.pc.o, s.pc.stage))
    && (forall d :: 1 <= d <= |s.inbox| && !(s.pc.Busy? && d == |s.inbox|) ==>
                      Complete(c, s.inbox[d - 1], Proj(s.log, d)))
  }

  lemma {:induction false} ProjAbsent(log: seq<Entry>, d: nat)
    requires forall i :: 0 <= i < |log| ==> log[i].who != Delivery(d)
    ensures Proj(log, d) == []
  {
    if log != [] {
      ProjAbsent(log[..|log| - 1], d);
    }
  }

  /** Steps that log nothing and keep worker and inbox. */
  lemma ToldQuiet(c: Config, s: State, s': State)
    requires Usable(c) && Told(c, s)
    requires s'.log == s.log && s'.inbox == s.inbox && (s'.pc == s.pc || (!s.pc.Busy? && !s'.pc.Busy?))
    ensures Told(c, s')
  {
    hide Word, StageOk, Complete, Proj;
  }

  lemma ToldStream(c: Config, s: State, s': State, e: Entry)
    requires Usable(c) && Told(c, s) && e.who.Streamer?
    requires s'.log == s.log + [e] && s'.inbox == s.inbox && s'.pc == s.pc
    ensures Told(c, s')
  {
    hide Word, StageOk, Complete, Proj;
    forall d: nat
      ensures Proj(s'.log, d) == Proj(s.log, d)
    {
      ProjSnoc(s.log, e, d);
    }
  }

  lemma ToldFetch(c: Config, s: State, o: Order)
    requires Usable(c) && Told(c, s) && s.pc.Fetching?
    ensures Told(c, Next(c, s, Deliver(o)))
  {
    hide StageOk, Complete, Proj;
    var s' := Next(c, s, Deliver(o));
    var e := s'.log[|s.log|];
    ProjAbsent(s.log, |s'.inbox|);
    forall d: nat
      ensures Proj(s'.log, d) == Proj(s.log, d) + if d == |s'.inbox| then [Fetched(o)] else []
    {
      ProjSnoc(s.log, e, d);
    }
    assert StageOk(c, o, AtHalt) by {
      AtHaltOk(c, o);
    }
    forall d | 1 <= d <= |s.inbox|
      ensures Complete(c, s'.inbox[d - 1], Proj(s'.log, d))
    {
      assert Proj(s'.log, d) == Proj(s.log, d);
    }
  }

  lemma AtHaltOk(c: Config, o: Order)
    requires Usable(c)
    ensures StageOk(c, o, AtHalt)
  {}

  lemma ToldWork(c: Config, s: State, s': State)
    requires Usable(c) && Told(c, s) && s.pc.Busy? && StepOk(c, s, s.pc.o, s.pc.stage, s')
    ensures Told(c, s')
  {
    hide Word, StageOk, Complete, Proj;
    var n := |s.inbox|;
    var o, st := s.pc.o, s.pc.stage;
    if s'.log == s.log {
      assert Word(o, st) + [] == Word(o, st);
    } else {
      var e := s'.log[|s.log|];
      assert s'.log == s.log + [e];
      forall d: nat
        ensures Proj(s'.log, d) == Proj(s.log, d) + if d == n then [e.ev] else []
      {
        ProjSnoc(s.log, e, d);
      }
      forall d | 1 <= d < n
        ensures Proj(s'.log, d) == Proj(s.log, d)
      {
        assert Proj(s.log, d) + [] == Proj(s.log, d);
      }
    }
  }

  lemma ToldStep(c: Config, s: State, l: Label)
    requires Usable(c) && Told(c, s)
    ensures Told(c, Next(c, s, l))
  {
    hide Told, WorkStep, StepOk;
    var s' := Next(c, s, l);
    match l
    case Deliver(o) =>
      if s.pc.Fetching? {
        ToldFetch(c, s, o);
      }
    case Work(answer, ok, stop) =>
      if s.pc.Busy? {
        BusyOk(c, s);
        WorkSteps(c, s, answer, ok, stop);
        if StepOk(c, s, s.pc.o, s.pc.stage, s') {
          ToldWork(c, s, s');
        } else {
          ToldQuiet(c, s, s');
        }
      } else {
        IdleWork(c, s, answer, ok, stop);
        ToldQuiet(c, s, s');
      }
    case StreamWork(ok, stop) =>
      if s'.log == s.log {
        ToldQuiet(c, s, s');
      } else {
        ToldStream(c, s, s', s'.log[|s.log|]);
      }
    case _ => ToldQuiet(c, s, s');
  }

  lemma BusyOk(c: Config, s: State)
    requires Usable(c) && Told(c, s) && s.pc.Busy?
    ensures StageOk(c, s.pc.o, s.pc.stage)
  {}

  lemma IdleWork(c: Config, s: State, answer: Option<Fill>, ok: bool, stop: bool)
    requires Usable(c) && !s.pc.Busy?
    ensures var s' := WorkStep(c, s, answer, ok, stop); s'.log == s.log && s'.inbox == s.inbox && !s'.pc.Busy?
  {}

  lemma {:induction false} ToldAlways(c: Config, s: State, ls: seq<Label>)
    requires Usable(c) && Told(c, s)
    ensures Told(c, Run(c, s, ls))
    decreases |ls|
  {
    if ls != [] {
      ToldStep(c, s, ls[0]);
      ToldAlways(c, Next(c, s, ls[0]), ls[1..]);
    }
  }

  /**
   In every interleaving each finished delivery has left one of the fixed words: a refusal commits once
   and neither submits nor publishes; an accepted order called exactly the wanted slices of its plan;
   a failed one made its only call in vain, or was cut off between slices; the commit of an accepted
   order with a positive fill follows a confirmed publish within retries + 1 attempts; a publish given
   up on has no commit.
   */
  lemma DeliveryGrammar(c: Config, b: Book, now: int, ls: seq<Label>, d: nat)
    requires Usable(c)
    requires var s := Run(c, Gateway.Boot(c, b, now), ls);
             1 <= d <= |s.inbox| && !(s.pc.Busy? && d == |s.inbox|)
    ensures var s := Run(c, Gateway.Boot(c, b, now), ls);
            Complete(c, s.inbox[d - 1], Proj(s.log, d))
  {
    ToldAlways(c, Gateway.Boot(c, b, now), ls);
  }
}
