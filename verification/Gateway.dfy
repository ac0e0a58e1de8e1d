/**
 The gateway as a labelled transition system.  A serial intent worker and a fills worker share the
 tracker and the order table; an operator halts and resumes, a drainer closes the intake, the root
 context may be cancelled, and time passes.  Every shared access is its own step: a tracker update
 first changes memory and later the table, so the other worker can come in between.  Foreign calls
 (broker, exchange, sleeping) answer as the label says.  `Run` over any label sequence is any
 interleaving.
 */
module Gateway {
  import opened Exchange
  import opened Tracker
  import Limiter
  import Risk
  import Algo
  import Ids

  datatype Config = Config(policy: Option<Risk.Policy>, maxDaily: int, maxBuys: int, maxSells: int,
                           rps: real, retries: nat, algo: Option<Algo.Config>)

  /** VWAP settings whose weights can be normalised. */
  ghost predicate Usable(c: Config) {
    c.algo.Some? && c.algo.value.algorithm.Vwap? ==> Algo.Sound(c.algo.value)
  }

  // --------------------------------------------------------- what reaches the exchange

  /** The orders one parent becomes: itself, or one per slice; None for an unknown algorithm. */
  function Plan(c: Config, o: Order): Option<seq<Order>>
    requires Usable(c)
  {
    match c.algo
    case None => Some([o])
    case Some(a) =>
      match Algo.Quantities(a, o.quantity)
      case None => None
      case Some(qs) =>
        Some(seq(|qs|, i requires 0 <= i < |qs| => o.(id := Ids.SliceId(o.id, i), quantity := qs[i])))
  }

  /** One call to the exchange; None is an error. */
  datatype Attempt = Attempt(index: nat, child: Order, answer: Option<Fill>)

  function Answers(tried: seq<Attempt>): seq<Fill> {
    if tried == [] then []
    else
      var a := tried[|tried| - 1];
      Answers(tried[..|tried| - 1]) + if a.answer.Some? then [a.answer.value] else []
  }

  // ---------------------------------------------------------------------- the state

  datatype Refusal =
    | Halted
    | BadId(error: Risk.IdError)
    | Duplicate
    | OverPolicy(limit: Risk.Refusal)
    | Unreachable                              // the daily count could not be read
    | DailyCount
    | SideCount

  /** A bad or known ID is not recorded as rejected; every other refusal is. */
  predicate LeavesRecord(why: Refusal) {
    !why.BadId? && !why.Duplicate?
  }

  /** How a delivery ends when its offset is to be committed. */
  datatype Outcome =
    | TurnedAway(why: Refusal)
    | Broken(tried: seq<Attempt>)                               // the exchange call failed
    | Resting(tried: seq<Attempt>, fill: Option<Fill>)          // accepted, nothing filled yet
    | Confirmed(tried: seq<Attempt>, done: Fill, fails: nat)    // immediate fill published after `fails` failures

  /** Where the intent worker stands inside one delivery. */
  datatype Stage =
    | AtHalt
    | AtId
    | AtDup
    | AtRisk
    | AtSide(checked: int)                     // total count passed at `checked`
    | Waiting(checked: int, sideChecked: int)  // both counts passed; in the limiter
    | AdmitMem(checked: int, sideChecked: int)
    | AdmitRow(checked: int, sideChecked: int)
    | Sending(tried: seq<Attempt>, next: nat)
    | FailMem(tried: seq<Attempt>)
    | FailRow(tried: seq<Attempt>, qty: real)
    | AcceptMem(tried: seq<Attempt>, fill: Option<Fill>)
    | AcceptRow(tried: seq<Attempt>, fill: Option<Fill>, qty: real)
    | FillMem(tried: seq<Attempt>, done: Fill)
    | FillRow(tried: seq<Attempt>, done: Fill, qty: real)
    | Publishing(tried: seq<Attempt>, done: Fill, fails: nat)
    | RejectMem(why: Refusal)
    | RejectRow(why: Refusal)
    | Committing(out: Outcome)

  /** The four parts of a delivery besides the exchange calls. */
  predicate Vetting(st: Stage) {
    st.AtHalt? || st.AtId? || st.AtDup? || st.AtRisk? || st.AtSide?
  }

  predicate Admitting(st: Stage) {
    st.Waiting? || st.AdmitMem? || st.AdmitRow?
  }

  predicate Recording(st: Stage) {
    || st.FailMem? || st.FailRow? || st.AcceptMem? || st.AcceptRow?
    || st.FillMem? || st.FillRow? || st.RejectMem? || st.RejectRow?
  }

  predicate Settling(st: Stage) {
    st.Publishing? || st.Committing?
  }

  datatype Pc = Top | Fetching | Stopped | Busy(o: Order, stage: Stage)

  datatype StreamPc = Idle | StreamRow(fill: Fill) | StreamPublish(fill: Fill, fails: nat)

  datatype Event =
    | Fetched(o: Order)
    | Refused(why: Refusal)
    | Throttled                               // limiter wait cancelled
    | Granted
    | Admitted(o: Order)                      // added to the tracker as pending
    | Sent(parent: string, attempt: Attempt)
    | Failed
    | Accepted(result: Option<Fill>)
    | Published(fill: Fill, ok: bool)
    | GaveUp                                  // publish exhausted or aborted
    | Committed(ok: bool)

  /** Deliveries are numbered from one. */
  datatype Actor = Delivery(n: nat) | Streamer

  datatype Entry = Entry(who: Actor, at: int, ev: Event)

  datatype State = State(now: int, halted: bool, intake: bool, alive: bool,
                         mem: Memory, rows: Rows,
                         bucket: Limiter.Bucket, checks: seq<Limiter.Check>,
                         inbox: seq<Order>, pc: Pc, stream: StreamPc, log: seq<Entry>)

  /** A fresh process, given the tracker and the table as loading and reconciliation left them. */
  function Boot(c: Config, b: Book, now: int): State {
    State(now, false, true, true, b.mem, b.rows,
          Limiter.Fresh(c.rps, now), [Limiter.Check(now, false)], [], Top, Idle, [])
  }

  datatype Label =
    | Tick(dt: nat)
    | Halt
    | Resume
    | CloseIntake                                            // Drain
    | Shutdown                                               // root context cancelled
    | Deliver(o: Order)
    | FetchError
    | Work(answer: Option<Fill>, ok: bool, stop: bool)       // the intent worker's next step
    | Stream(fill: Fill)                                     // a fill arrives on the user stream
    | StreamWork(ok: bool, stop: bool)                       // the fills worker's next step

  function Emit(s: State, ev: Event): State {
    s.(log := s.log + [Entry(Delivery(|s.inbox|), s.now, ev)])
  }

  function Goto(s: State, o: Order, st: Stage): State {
    s.(pc := Busy(o, st))
  }

  // ---------------------------------------------------------------- intent worker

  /** Refuse and record the order as rejected. */
  function Reject(s: State, o: Order, why: Refusal): State {
    Goto(Emit(s, Refused(why)), o, RejectMem(why))
  }

  /** Refuse and leave no record of the order. */
  function TurnAway(s: State, o: Order, why: Refusal): State {
    Goto(Emit(s, Refused(why)), o, Committing(TurnedAway(why)))
  }

  /** Halt, ID and duplicate checks, then the policy and the daily counts. */
  function Vet(c: Config, s: State, o: Order, st: Stage, ok: bool): State
    requires Vetting(st)
  {
    match st
    case AtHalt =>
      if s.halted then Reject(s, o, Halted) else Goto(s, o, AtId)
    case AtId =>
      var error := Risk.ValidateOrderId(o.id);
      if error.Some? then TurnAway(s, o, BadId(error.value)) else Goto(s, o, AtDup)
    case AtDup =>
      if o.id in s.mem.states then TurnAway(s, o, Duplicate) else Goto(s, o, AtRisk)
    case AtRisk =>
      var limit := Risk.CheckIntent(c.policy, o);
      if limit.Some? then Reject(s, o, OverPolicy(limit.value))
      else if !ok then Reject(s, o, Unreachable)
      else if Full(s.rows, s.now, None, c.maxDaily) then Reject(s, o, DailyCount)
      else Goto(s, o, AtSide(s.now))
    case AtSide(checked) =>
      var cap := SideCap(c, o.side);
      if cap > 0 && !ok then Reject(s, o, Unreachable)
      else if cap > 0 && Full(s.rows, s.now, Some(o.side), cap) then Reject(s, o, SideCount)
      else Goto(s, o, Waiting(checked, s.now))
  }

  /** Today's count has reached the cap. */
  predicate Full(rows: Rows, now: int, side: Option<Side>, cap: int) {
    |CreatedSince(rows, Day(now) * DAY, side)| >= cap
  }

  /** Zero means no cap of that side. */
  function SideCap(c: Config, side: Side): int {
    if side.Buy? then c.maxBuys else if side.Sell? then c.maxSells else 0
  }

  /** One look at the limiter, and admission to the tracker. */
  function Admit(c: Config, s: State, o: Order, st: Stage, stop: bool): State
    requires Admitting(st)
  {
    match st
    case Waiting(t1, t2) =>
      var granted := Limiter.Grants(s.bucket, s.now);
      var s' := s.(bucket := Limiter.Take(s.bucket, s.now),
                   checks := s.checks + [Limiter.Check(s.now, granted)]);
      if granted then Goto(Emit(s', Granted), o, AdmitMem(t1, t2))
      else if !s.alive && stop then Emit(s', Throttled).(pc := Top)
      else s'
    case AdmitMem(t1, t2) =>
      Goto(Emit(s.(mem := AddMem(s.mem, o, Pending)), Admitted(o)), o, AdmitRow(t1, t2))
    case AdmitRow(_, _) =>
      Goto(s.(rows := SaveRow(s.rows, o, Pending, s.now)), o, Sending([], 0))
  }

  /** The exchange calls of one parent, and what is made of the answers. */
  function Submit(c: Config, s: State, o: Order, st: Stage, answer: Option<Fill>, stop: bool): State
    requires Usable(c) && st.Sending?
  {
    var plan := Plan(c, o);
    if plan.None? then Goto(Emit(s, Failed), o, FailMem(st.tried))
    else if st.next < |plan.value| then
      var child := plan.value[st.next];
      if c.algo.Some? && st.next > 0 && stop then Goto(Emit(s, Failed), o, FailMem(st.tried))
      else if c.algo.Some? && child.quantity <= 0.0 then Goto(s, o, Sending(st.tried, st.next + 1))
      else
        var a := Attempt(st.next, child, answer);
        Goto(Emit(s, Sent(o.id, a)), o, Sending(st.tried + [a], st.next + 1))
    else
      var fills := Answers(st.tried);
      if c.algo.None? then
        if fills == [] then Goto(Emit(s, Failed), o, FailMem(st.tried))
        else Goto(Emit(s, Accepted(Some(fills[0]))), o, AcceptMem(st.tried, Some(fills[0])))
      else
        Goto(Emit(s, Accepted(Algo.Aggregate(fills))), o, AcceptMem(st.tried, Algo.Aggregate(fills)))
  }

  /** After the table knows the order was accepted. */
  function AfterAccept(tried: seq<Attempt>, fill: Option<Fill>): Stage {
    if fill.Some? && fill.value.quantity > 0.0 then FillMem(tried, fill.value) else Committing(Resting(tried, fill))
  }

  /** State-only tracker updates: memory, then (if anything changed) the table. */
  function Record(c: Config, s: State, o: Order, st: Stage): State
    requires Recording(st)
  {
    match st
    case FailMem(tried) =>
      var qty := StateOnlyQty(s.mem, s.rows, o.id, Rejected);
      UpdateMem(s, o, o.id, Rejected, FailRow(tried, qty), Committing(Broken(tried)))
    case FailRow(tried, qty) =>
      Goto(s.(rows := UpdateRow(s.rows, o.id, Rejected, qty)), o, Committing(Broken(tried)))
    case AcceptMem(tried, fill) =>
      var qty := StateOnlyQty(s.mem, s.rows, o.id, Submitted);
      UpdateMem(s, o, o.id, Submitted, AcceptRow(tried, fill, qty), AfterAccept(tried, fill))
    case AcceptRow(tried, fill, qty) =>
      Goto(s.(rows := UpdateRow(s.rows, o.id, Submitted, qty)), o, AfterAccept(tried, fill))
    case FillMem(tried, f) =>
      var qty := StateOnlyQty(s.mem, s.rows, f.orderId, Filled);
      UpdateMem(s, o, f.orderId, Filled, FillRow(tried, f, qty), Publishing(tried, f, 0))
    case FillRow(tried, f, qty) =>
      Goto(s.(rows := UpdateRow(s.rows, f.orderId, Filled, qty)), o, Publishing(tried, f, 0))
    case RejectMem(why) =>
      Goto(s.(mem := AddMem(s.mem, o, Rejected)), o, RejectRow(why))
    case RejectRow(why) =>
      Goto(s.(rows := SaveRow(s.rows, o, Rejected, s.now)), o, Committing(TurnedAway(why)))
  }

  function UpdateMem(s: State, o: Order, id: string, st: OrderState, changed: Stage, same: Stage): State {
    Goto(s.(mem := SetMem(s.mem, id, st)), o, if Changes(s.mem, id, st) then changed else same)
  }

  /** Publishing with bounded retries, and the commit. */
  function Settle(c: Config, s: State, o: Order, st: Stage, ok: bool, stop: bool): State
    requires Settling(st)
  {
    match st
    case Publishing(tried, f, fails) =>
      if fails > c.retries || (fails > 0 && !s.alive && stop) then Emit(s, GaveUp).(pc := Top)
      else if ok then Goto(Emit(s, Published(f, true)), o, Committing(Confirmed(tried, f, fails)))
      else Goto(Emit(s, Published(f, false)), o, Publishing(tried, f, fails + 1))
    case Committing(out) => Emit(s, Committed(ok)).(pc := Top)
  }

  function WorkStep(c: Config, s: State, answer: Option<Fill>, ok: bool, stop: bool): State
    requires Usable(c)
  {
    match s.pc
    case Top => s.(pc := if s.intake then Fetching else Stopped)
    case Fetching => if s.intake then s else s.(pc := Stopped)
    case Stopped => s
    case Busy(o, st) =>
      if Vetting(st) then Vet(c, s, o, st, ok)
      else if Admitting(st) then Admit(c, s, o, st, stop)
      else if st.Sending? then Submit(c, s, o, st, answer, stop)
      else if Settling(st) then Settle(c, s, o, st, ok, stop)
      else Record(c, s, o, st)
  }

  // ----------------------------------------------------------------- fills worker

  function StreamStep(c: Config, s: State, ok: bool, stop: bool): State {
    match s.stream
    case Idle => s
    case StreamRow(f) =>
      s.(rows := UpdateRow(s.rows, f.orderId, Reported(f), f.quantity), stream := StreamPublish(f, 0))
    case StreamPublish(f, fails) =>
      if fails > c.retries || (fails > 0 && !s.alive && stop) then s.(stream := Idle)
      else s.(log := s.log + [Entry(Streamer, s.now, Published(f, ok))],
              stream := if ok then Idle else StreamPublish(f, fails + 1))
  }

  function Next(c: Config, s: State, l: Label): State
    requires Usable(c)
  {
    match l
    case Tick(dt) => s.(now := s.now + dt)
    case Halt => s.(halted := true)
    case Resume => s.(halted := false)
    case CloseIntake => s.(intake := false)
    case Shutdown => s.(intake := false, alive := false)
    case Deliver(o) =>
      if s.pc.Fetching? then Goto(Emit(s.(inbox := s.inbox + [o]), Fetched(o)), o, AtHalt) else s
    case FetchError => if s.pc.Fetching? then s.(pc := Top) else s
    case Work(answer, ok, stop) => WorkStep(c, s, answer, ok, stop)
    case Stream(f) =>
      if s.stream.Idle? then s.(mem := SetMem(s.mem, f.orderId, Reported(f)), stream := StreamRow(f)) else s
    case StreamWork(ok, stop) => StreamStep(c, s, ok, stop)
  }

  /** Any interleaving. */
  function Run(c: Config, s: State, ls: seq<Label>): State
    requires Usable(c)
    decreases |ls|
  {
    if ls == [] then s else Run(c, Next(c, s, ls[0]), ls[1..])
  }

  lemma {:induction false} RunSplits(c: Config, s: State, a: seq<Label>, b: seq<Label>)
    requires Usable(c)
    ensures Run(c, s, a + b) == Run(c, Run(c, s, a), b)
    decreases |a|
  {
    hide Next;
    if a == [] {
      assert a + b == b;
    } else {
      assert (a + b)[1..] == a[1..] + b;
      RunSplits(c, Next(c, s, a[0]), a[1..], b);
    }
  }

  /** States that follow one another under the labels are the run. */
  lemma {:induction false} Walk(c: Config, path: seq<State>, ls: seq<Label>)
    requires Usable(c) && |path| == |ls| + 1
    requires forall i :: 0 <= i < |ls| ==> Next(c, path[i], ls[i]) == path[i + 1]
    ensures Run(c, path[0], ls) == path[|ls|]
    decreases |ls|
  {
    hide Next;
    if ls != [] {
      assert Next(c, path[0], ls[0]) == path[1];
      forall i | 0 <= i < |ls| - 1
        ensures Next(c, path[1..][i], ls[1..][i]) == path[1..][i + 1]
      {
        assert Next(c, path[i + 1], ls[i + 1]) == path[i + 2];
      }
      Walk(c, path[1..], ls[1..]);
    }
  }
}
