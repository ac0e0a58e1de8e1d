/** What can still go out from a given state: any order at all, or a given one as far as the exchange. */
module GatewayDrain {
  import opened Exchange
  import opened Tracker
  import opened Gateway
  import opened GatewayFlow
  import opened GatewayOnce
  import opened GatewayQuiesce
  import opened GatewayWitness
  import GatewayRate
  import GatewayTrace
  import Limiter
  import Risk

  /** A grant, an admission or an exchange call of any order, or an exchange call for one order. */
  datatype Goal = Anything | SendOf(id: string)

  predicate Meets(ev: Event, goal: Goal) {
    match goal
    case Anything => Outgoing(ev)
    case SendOf(id) => ev.Sent? && ev.parent == id
  }

  /** The continuation logs it. */
  ghost predicate Speaks(c: Config, s: State, ls: seq<Label>, goal: Goal)
    requires Usable(c)
  {
    var log := Run(c, s, ls).log;
    exists i :: |s.log| <= i < |log| && Meets(log[i].ev, goal)
  }

  ghost predicate GoesOut(c: Config, s: State, goal: Goal)
    requires Usable(c)
  {
    exists ls :: Speaks(c, s, ls, goal)
  }

  // ------------------------------------------------------------------ the condition

  /** The limits the order itself and the settings put in its way; daily counts and tokens only take time. */
  predicate Clears(c: Config, o: Order) {
    Risk.CheckIntent(c.policy, o).None? && c.maxDaily >= 1 && c.rps >= 1.0
  }

  /** An order that every check from the first one on can let through. */
  predicate Passes(c: Config, m: Memory, o: Order) {
    Risk.ValidateOrderId(o.id).None? && o.id !in m.states && Clears(c, o)
  }

  ghost predicate WantedFrom(c: Config, o: Order, next: nat)
    requires Usable(c)
  {
    Plan(c, o).Some? && exists i :: next <= i < |Plan(c, o).value| && GatewayTrace.Wanted(c, Plan(c, o).value[i])
  }

  /** What can be told from the state alone. */
  ghost predicate CanGoOut(c: Config, s: State)
    requires Usable(c)
  {
    if s.pc.Fetching? then exists o :: Passes(c, s.mem, o)
    else if !s.pc.Busy? then false
    else
      var o := s.pc.o;
      match s.pc.stage
      case AtHalt => Passes(c, s.mem, o)
      case AtId => Passes(c, s.mem, o)
      case AtDup => o.id !in s.mem.states && Clears(c, o)
      case AtRisk => Clears(c, o)
      case AtSide(_) => c.rps >= 1.0
      case Waiting(_, _) => c.rps >= 1.0
      case AdmitMem(_, _) => true
      case AdmitRow(_, _) => WantedFrom(c, o, 0)
      case Sending(_, next) => WantedFrom(c, o, next)
      case _ => false
  }

  // -------------------------------------------------------- if not, nothing goes out

  ghost predicate Mute(c: Config, s: State, k: nat)
    requires Usable(c)
  {
    && !s.intake && (s.pc.Busy? ==> s.inbox != []) && s.bucket.rps == c.rps && !CanGoOut(c, s)
    && k <= |s.log| && forall i :: k <= i < |s.log| ==> !Outgoing(s.log[i].ev)
  }

  /** A bucket below one token does not grant, and a count below the cap needs a cap. */
  lemma NothingForNothing(c: Config, s: State)
    ensures s.bucket.rps < 1.0 ==> !Limiter.Grants(s.bucket, s.now)
    ensures c.maxDaily < 1 ==> Full(s.rows, s.now, None, c.maxDaily)
    ensures Limiter.Take(s.bucket, s.now).rps == s.bucket.rps
  {}

  lemma MuteStays(c: Config, s: State, s': State)
    requires Usable(c) && Flow(c, s, s') && !CanGoOut(c, s) && s.bucket.rps == c.rps
    requires s'.pc.Fetching? ==> s.pc.Fetching?
    requires s'.log == s.log || (s'.log != [] && Explained(c, s, s', s'.log[|s'.log| - 1]))
    ensures !CanGoOut(c, s')
    ensures s'.log != s.log ==> !Outgoing(s'.log[|s'.log| - 1].ev)
  {
    hide Plan, Logged, Full, Limiter.Grants, Limiter.Take, Risk.CheckIntent, Risk.ValidateOrderId, Because;
    NothingForNothing(c, s);
    forall o | Passes(c, s'.mem, o)
      ensures Passes(c, s.mem, o)
    {
    }
  }

  lemma MuteStep(c: Config, s: State, l: Label, k: nat)
    requires Usable(c) && Mute(c, s, k)
    ensures Mute(c, Next(c, s, l), k)
  {
    hide Next, Plan, Logged, CanGoOut, Comes, Explained, CacheOf, WorkerMoves, StreamMoves;
    hide Limiter.Take, Limiter.Grants;
    var s' := Next(c, s, l);
    StepFlows(c, s, l);
    StepEffect(c, s, l);
    NothingForNothing(c, s);
    if s'.log != s.log {
      var e := Append(c, s, s');
    }
    MuteStays(c, s, s');
  }

  lemma {:induction false} MuteAlways(c: Config, s: State, ls: seq<Label>, k: nat)
    requires Usable(c) && Mute(c, s, k)
    ensures Mute(c, Run(c, s, ls), k)
    decreases |ls|
  {
    hide Next, Mute;
    if ls != [] {
      MuteStep(c, s, ls[0], k);
      MuteAlways(c, Next(c, s, ls[0]), ls[1..], k);
    }
  }

  // ------------------------------------------------------------- if so, something can

  /** One step now, the rest later. */
  lemma Later(c: Config, s: State, l: Label, goal: Goal)
    requires Usable(c) && GoesOut(c, Next(c, s, l), goal) && |s.log| <= |Next(c, s, l).log|
    ensures GoesOut(c, s, goal)
  {
    hide Next;
    var ls :| Speaks(c, Next(c, s, l), ls, goal);
    assert ([l] + ls)[1..] == ls;
    assert Speaks(c, s, [l] + ls, goal);
  }

  lemma AtOnce(c: Config, s: State, l: Label, goal: Goal)
    requires Usable(c) && |Next(c, s, l).log| == |s.log| + 1 && Meets(Next(c, s, l).log[|s.log|].ev, goal)
    ensures GoesOut(c, s, goal)
  {
    hide Next;
    assert [l][1..] == [];
    assert Run(c, s, [l]) == Next(c, s, l);
    assert Speaks(c, s, [l], goal);
  }

  /** The goal is this delivery's to meet. */
  ghost predicate Serves(c: Config, o: Order, goal: Goal)
    requires Usable(c)
  {
    goal.SendOf? ==> goal.id == o.id && WantedFrom(c, o, 0)
  }

  /** A new day, a token, and no halt: nothing that passes with time is in the way. */
  ghost predicate Ready(s: State) {
    && Limiter.Grants(s.bucket, s.now) && !s.halted
    && forall id :: id in s.rows ==> s.rows[id].createdAt < Day(s.now) * DAY
  }

  lemma NotFull(s: State, side: Option<Side>, cap: int)
    requires Ready(s) && cap >= 1
    ensures !Full(s.rows, s.now, side, cap)
  {
    assert CreatedSince(s.rows, Day(s.now) * DAY, side) == {};
  }

  /** The step of a vetting stage that finds nothing to object to. */
  predicate Onward(c: Config, s: State, to: Stage)
    requires Usable(c) && s.pc.Busy?
  {
    Next(c, s, Proceed) == Goto(s, s.pc.o, to)
  }

  lemma VetPasses(c: Config, s: State)
    requires Usable(c) && Ready(s) && s.pc.Busy? && Vetting(s.pc.stage) && CanGoOut(c, s)
    ensures match s.pc.stage
            case AtHalt => Onward(c, s, AtId)
            case AtId => Onward(c, s, AtDup)
            case AtDup => Onward(c, s, AtRisk)
            case AtRisk => Onward(c, s, AtSide(s.now))
            case AtSide(checked) => Onward(c, s, Waiting(checked, s.now))
  {
    hide Full, Risk.CheckIntent, Risk.ValidateOrderId, Admit, Submit, Record, Settle, StreamStep, Ready;
    assert !s.halted by {
      NotHalted(s);
    }
    if s.pc.stage.AtRisk? {
      NotFull(s, None, c.maxDaily);
    }
    if s.pc.stage.AtSide? && SideCap(c, s.pc.o.side) > 0 {
      NotFull(s, Some(s.pc.o.side), SideCap(c, s.pc.o.side));
    }
  }

  lemma NotHalted(s: State)
    requires Ready(s)
    ensures !s.halted
  {}

  /** How many checks are still ahead. */
  function ChecksLeft(st: Stage): nat {
    match st
    case AtHalt => 5
    case AtId => 4
    case AtDup => 3
    case AtRisk => 2
    case AtSide(_) => 1
    case _ => 0
  }

  lemma VettedGoes(c: Config, s: State, goal: Goal)
    requires Usable(c) && Ready(s) && s.pc.Busy? && (Vetting(s.pc.stage) || s.pc.stage.Waiting?) && CanGoOut(c, s)
    requires Serves(c, s.pc.o, goal)
    ensures GoesOut(c, s, goal)
    decreases ChecksLeft(s.pc.stage)
  {
    hide Next, GoesOut, Plan, Serves, Risk.CheckIntent, Risk.ValidateOrderId;
    if s.pc.stage.Waiting? {
      GrantGoes(c, s, goal);
    } else {
      VetPasses(c, s);
      VettedGoes(c, Next(c, s, Proceed), goal);
      Later(c, s, Proceed, goal);
    }
  }

  lemma GrantGoes(c: Config, s: State, goal: Goal)
    requires Usable(c) && s.pc.Busy? && s.pc.stage.Waiting? && Limiter.Grants(s.bucket, s.now)
    requires Serves(c, s.pc.o, goal)
    ensures GoesOut(c, s, goal)
  {
    hide GoesOut, WantedFrom, Vet, Submit, Record, Settle, StreamStep, Limiter.Grants, Limiter.Take;
    if goal.Anything? {
      AtOnce(c, s, Proceed, goal);
    } else {
      AdmissionGoes(c, Next(c, s, Proceed), goal);
      Later(c, s, Proceed, goal);
    }
  }

  lemma AdmissionGoes(c: Config, s: State, goal: Goal)
    requires Usable(c) && s.pc.Busy? && s.pc.stage.AdmitMem? && Serves(c, s.pc.o, goal)
    ensures GoesOut(c, s, goal)
  {
    hide GoesOut, WantedFrom, Vet, Submit, Record, Settle, StreamStep, AddMem;
    if goal.Anything? {
      AtOnce(c, s, Proceed, goal);
    } else {
      RowGoes(c, Next(c, s, Proceed), goal);
      Later(c, s, Proceed, goal);
    }
  }

  lemma RowGoes(c: Config, s: State, goal: Goal)
    requires Usable(c) && s.pc.Busy? && s.pc.stage.AdmitRow? && WantedFrom(c, s.pc.o, 0)
    requires goal.SendOf? ==> goal.id == s.pc.o.id
    ensures GoesOut(c, s, goal)
  {
    hide GoesOut, WantedFrom, Plan, Vet, Submit, Record, Settle, StreamStep, SaveRow;
    SendingGoes(c, Next(c, s, Proceed), goal);
    Later(c, s, Proceed, goal);
  }

  lemma SendingGoes(c: Config, s: State, goal: Goal)
    requires Usable(c) && s.pc.Busy? && s.pc.stage.Sending? && WantedFrom(c, s.pc.o, s.pc.stage.next)
    requires goal.SendOf? ==> goal.id == s.pc.o.id
    ensures GoesOut(c, s, goal)
    decreases if Plan(c, s.pc.o).Some? then |Plan(c, s.pc.o).value| - s.pc.stage.next else 0
  {
    hide GoesOut, Plan, Vet, Admit, Record, Settle, StreamStep;
    var plan, next := Plan(c, s.pc.o).value, s.pc.stage.next;
    if GatewayTrace.Wanted(c, plan[next]) {
      AtOnce(c, s, Proceed, goal);
    } else {
      assert Next(c, s, Proceed) == Goto(s, s.pc.o, Sending(s.pc.stage.tried, next + 1));
      SendingGoes(c, Next(c, s, Proceed), goal);
      Later(c, s, Proceed, goal);
    }
  }

  // ------------------------------------------------------------------------- waiting

  lemma {:induction false} Latest(rows: Rows) returns (t: int)
    ensures forall id :: id in rows ==> rows[id].createdAt <= t
    decreases |rows|
  {
    if rows == map[] {
      t := 0;
    } else {
      var id :| id in rows;
      var rest := rows - {id};
      assert |rest| < |rows| by {
        assert rest.Keys == rows.Keys - {id};
        assert |rest.Keys| == |rest| && |rows.Keys| == |rows|;
      }
      t := Latest(rest);
      assert forall x :: x in rows && x != id ==> x in rest && rest[x] == rows[x];
      t := if t < rows[id].createdAt then rows[id].createdAt else t;
    }
  }

  /** A second is enough for a token. */
  lemma TokenInASecond(b: Limiter.Bucket, now: int)
    requires b.rps >= 1.0 && b.tokens >= 0.0 && now >= b.last + 1_000_000_000
    ensures Limiter.Grants(b, now)
  {
    Limiter.AccruedMonotone(b.rps, 1_000_000_000, now - b.last);
    assert Limiter.Accrued(b.rps, 1_000_000_000) == b.rps;
  }

  /** The limiter as every run leaves it. */
  predicate Sensible(c: Config, s: State) {
    s.bucket.rps == c.rps && s.bucket.last <= s.now && (c.rps >= 0.0 ==> s.bucket.tokens >= 0.0)
  }

  function Refreshed(s: State, dt: nat): State {
    s.(now := s.now + dt, halted := false)
  }

  /** Wait into a day no row was created on, and lift the halt. */
  lemma WaitUntilReady(c: Config, s: State, goal: Goal) returns (dt: nat)
    requires Usable(c) && Sensible(c, s) && c.rps >= 1.0
    ensures Ready(Refreshed(s, dt))
    ensures GoesOut(c, Refreshed(s, dt), goal) ==> GoesOut(c, s, goal)
  {
    hide GoesOut, WorkStep, StreamStep;
    var t := Latest(s.rows);
    dt := 1_000_000_000 + (if t > s.now then t - s.now else 0) + DAY;
    TokenInASecond(s.bucket, s.now + dt);
    var s1 := Next(c, s, Tick(dt));
    assert Next(c, s1, Resume) == Refreshed(s, dt);
    assert s.now + dt - DAY < Day(s.now + dt) * DAY;
    if GoesOut(c, Refreshed(s, dt), goal) {
      Later(c, s1, Resume, goal);
      Later(c, s, Tick(dt), goal);
    }
  }

  lemma DeliveredGoes(c: Config, s: State, o: Order, goal: Goal)
    requires Usable(c) && Ready(s) && s.pc.Fetching? && Passes(c, s.mem, o) && Serves(c, o, goal)
    ensures GoesOut(c, s, goal)
  {
    hide GoesOut, WorkStep, StreamStep, Passes, Serves;
    VettedGoes(c, Next(c, s, Deliver(o)), goal);
    Later(c, s, Deliver(o), goal);
  }

  /** An idle worker can fetch an order that passes and carry it to the exchange. */
  lemma FetchedIsSent(c: Config, s: State, o: Order)
    requires Usable(c) && Sensible(c, s) && s.pc.Top? && s.intake && Passes(c, s.mem, o) && WantedFrom(c, o, 0)
    ensures GoesOut(c, s, SendOf(o.id))
  {
    hide GoesOut, WantedFrom, Passes, Ready, StreamStep, Vet, Admit, Submit, Record, Settle;
    assert c.rps >= 1.0 by {
      PassesNeedsRate(c, s.mem, o);
    }
    var dt := WaitUntilReady(c, s, SendOf(o.id));
    var s1 := Refreshed(s, dt);
    assert Next(c, s1, Proceed) == s1.(pc := Fetching);
    StaysReady(s1, Fetching);
    DeliveredGoes(c, s1.(pc := Fetching), o, SendOf(o.id));
    Later(c, s1, Proceed, SendOf(o.id));
  }

  lemma PassesNeedsRate(c: Config, m: Memory, o: Order)
    requires Passes(c, m, o)
    ensures c.rps >= 1.0
  {}

  lemma StaysReady(s: State, pc: Pc)
    requires Ready(s)
    ensures Ready(s.(pc := pc))
  {}

  lemma CanMeansDoes(c: Config, s: State)
    requires Usable(c) && Sensible(c, s) && CanGoOut(c, s)
    ensures GoesOut(c, s, Anything)
  {
    hide GoesOut, WantedFrom, Risk.CheckIntent, Risk.ValidateOrderId, Ready;
    if s.pc.Busy? && s.pc.stage.AdmitMem? {
      AdmissionGoes(c, s, Anything);
    } else if s.pc.Busy? && s.pc.stage.AdmitRow? {
      RowGoes(c, s, Anything);
    } else if s.pc.Busy? && s.pc.stage.Sending? {
      SendingGoes(c, s, Anything);
    } else {
      var dt := WaitUntilReady(c, s, Anything);
      if s.pc.Busy? {
        VettedGoes(c, Refreshed(s, dt), Anything);
      } else {
        var o :| Passes(c, s.mem, o);
        DeliveredGoes(c, Refreshed(s, dt), o, Anything);
      }
    }
  }

  /** The bucket of every reachable state. */
  lemma ReachableSensible(c: Config, b: Book, now: int, ls: seq<Label>)
    requires Usable(c)
    ensures var s := Run(c, Gateway.Boot(c, b, now), ls);
            Sensible(c, s) && (s.pc.Busy? ==> s.inbox != [])
  {
    hide Run, GatewayRate.Rated, Limiter.Allowance, Limiter.CountIn;
    var s0 := Gateway.Boot(c, b, now);
    GatewayRate.BootSteady(c, b, now, 0, 0);
    GatewayRate.SteadyAlways(c, s0, ls, 0, 0);
    var s := Run(c, s0, ls);
    Limiter.ExactAllowance(c.rps, s.checks);
    if c.rps >= 0.0 {
      Limiter.TokensStayNonNegative(c.rps, s.checks);
    }
  }

  /**
   With the intake closed, in every reachable state: no continuation adds or sends another order
   exactly when the state itself rules it out.  A clean drain needs this, and that no fill is owed.
   */
  lemma DrainIsOverIff(c: Config, b: Book, now: int, ls: seq<Label>)
    requires Usable(c) && !Run(c, Gateway.Boot(c, b, now), ls).intake
    ensures var s := Run(c, Gateway.Boot(c, b, now), ls);
            (forall later :: !Speaks(c, s, later, Anything)) <==> !CanGoOut(c, s)
  {
    hide Run, CanGoOut;
    ReachableSensible(c, b, now, ls);
    var s := Run(c, Gateway.Boot(c, b, now), ls);
    if CanGoOut(c, s) {
      CanMeansDoes(c, s);
    } else {
      forall later
        ensures !Speaks(c, s, later, Anything)
      {
        MuteAlways(c, s, later, |s.log|);
      }
    }
  }

  /**
   The drain itself polls only the tracker, which does not know an order still in the limiter:
   here it finds no active order and would report that all settled, and the order can still go out.
   */
  lemma ZeroActiveIsNotDrained(o: Order)
    requires Risk.ValidateOrderId(o.id).None?
    ensures var c := Lenient(None);
            var s := Run(c, Empty(c), ToLimiter(o) + [CloseIntake]);
            !s.intake && MemoryActive(s.mem) == {} && CanGoOut(c, s) && exists later :: Speaks(c, s, later, Anything)
  {
    hide Run, CanGoOut, Speaks, WorkStep, StreamStep;
    var c := Lenient(None);
    ReachLimiter(c, o);
    RunSplits(c, Empty(c), ToLimiter(o), [CloseIntake]);
    var s := AtLimiter(c, o).(intake := false);
    Walk(c, [AtLimiter(c, o), s], [CloseIntake]);
    assert CanGoOut(c, s) by {
      LimiterCanGoOut(c, s);
    }
    DrainIsOverIff(c, Book(EMPTY, map[]), 0, ToLimiter(o) + [CloseIntake]);
  }

  lemma LimiterCanGoOut(c: Config, s: State)
    requires Usable(c) && c.rps >= 1.0 && InLimiter(s.pc)
    ensures CanGoOut(c, s)
  {}
}
