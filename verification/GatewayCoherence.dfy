/**
 Memory and table under both workers.  Each tracker update changes memory under the lock and the
 table after releasing it, so a write to the table can be outstanding while the other worker runs.
 */
module GatewayCoherence {
  import opened Exchange
  import opened Tracker
  import opened Gateway
  import opened GatewayFlow
  import opened GatewayWitness
  import Risk

  // ------------------------------------------------------------------- coherence

  predicate Outstanding(k: Cache, id: string) {
    (k.worker.Some? && RowOf(k.worker.value) == id) || (k.stream.Some? && RowOf(k.stream.value) == id)
  }

  /** Both workers have a write to the same row outstanding. */
  predicate Race(k: Cache) {
    k.worker.Some? && k.stream.Some? && RowOf(k.worker.value) == RowOf(k.stream.value)
  }

  predicate Shows(m: Memory, w: Option<Write>) {
    w.Some? ==> RowOf(w.value) in m.states && m.states[RowOf(w.value)] == w.value.st
  }

  /** Apart from the rows being written, memory never contradicts the table, and forgets only finished orders. */
  ghost predicate Coherent(k: Cache) {
    && WellKeyed(k.rows) && Shows(k.mem, k.worker) && Shows(k.mem, k.stream)
    && (forall id :: id in k.rows && !Outstanding(k, id) ==>
                       if id in k.mem.states then k.rows[id].state == k.mem.states[id] else Terminal(k.rows[id].state))
    && (forall id :: id in k.mem.orders ==>
                       && (id in k.rows || (k.worker.Some? && k.worker.value.Save? && k.worker.value.o.id == id))
                       && id in k.mem.states && k.mem.orders[id].id == id)
  }

  lemma MemoryMoveCoherent(k: Cache, k': Cache, w: Write)
    requires Coherent(k) && !Race(k')
    requires || (k.worker.None? && k' == k.(mem := InMemory(k.mem, w), worker := Some(w)))
             || (w.Update? && k.stream.None? && k' == k.(mem := InMemory(k.mem, w), stream := Some(w)))
    ensures Coherent(k')
  {}

  lemma TableMoveCoherent(k: Cache, k': Cache, w: Write, now: int)
    requires Coherent(k) && !Race(k)
    requires || (k.worker == Some(w) && k' == k.(rows := InTable(k.rows, w, now), worker := None))
             || (k.stream == Some(w) && w.Update? && k' == k.(rows := InTable(k.rows, w, now), stream := None))
    ensures Coherent(k')
  {
    forall id | id in k'.rows && !Outstanding(k', id)
      ensures if id in k.mem.states then k'.rows[id].state == k.mem.states[id] else Terminal(k'.rows[id].state)
    {
      if id != RowOf(w) {
        assert id in k.rows && !Outstanding(k, id);
      }
    }
  }

  lemma MoveCoherent(k: Cache, k': Cache, now: int)
    requires Coherent(k) && !Race(k) && !Race(k') && (WorkerMoves(k, k', now) || StreamMoves(k, k', now))
    requires (k.stream.Some? ==> k.stream.value.Update?) && (k'.stream.Some? ==> k'.stream.value.Update?)
    ensures Coherent(k')
  {
    hide Coherent, InMemory, InTable, Race;
    if k' != k {
      if k.worker.None? && k'.worker.Some? {
        MemoryMoveCoherent(k, k', k'.worker.value);
      } else if k.worker.Some? && k'.worker.None? {
        TableMoveCoherent(k, k', k.worker.value, now);
      } else if k.stream.None? {
        MemoryMoveCoherent(k, k', k'.stream.value);
      } else {
        TableMoveCoherent(k, k', k.stream.value, now);
      }
    }
  }

  /** Any step moves the cache as one of the workers does, or not at all. */
  lemma StepMoves(c: Config, s: State, l: Label)
    requires Usable(c)
    ensures var k, k' := CacheOf(s), CacheOf(Next(c, s, l));
            k' == k || WorkerMoves(k, k', s.now) || StreamMoves(k, k', s.now)
  {
    hide Next, WorkerMoves, StreamMoves, Looks, CacheOf;
    StepEffect(c, s, l);
  }

  /** The workers' outstanding writes never meet on one row, at any point of the run. */
  predicate RaceFree(c: Config, s: State, ls: seq<Label>)
    requires Usable(c)
    decreases |ls|
  {
    !Race(CacheOf(s)) && (ls != [] ==> RaceFree(c, Next(c, s, ls[0]), ls[1..]))
  }

  lemma StreamUpdates(s: State)
    ensures CacheOf(s).stream.Some? ==> CacheOf(s).stream.value.Update?
  {}

  lemma {:induction false} CoherentAlways(c: Config, s: State, ls: seq<Label>)
    requires Usable(c) && Coherent(CacheOf(s)) && RaceFree(c, s, ls)
    ensures Coherent(CacheOf(Run(c, s, ls)))
    decreases |ls|
  {
    hide Next, Coherent, CacheOf, WorkerMoves, StreamMoves, Race;
    if ls != [] {
      var s' := Next(c, s, ls[0]);
      StepMoves(c, s, ls[0]);
      StreamUpdates(s);
      StreamUpdates(s');
      if CacheOf(s') != CacheOf(s) {
        MoveCoherent(CacheOf(s), CacheOf(s'), s.now);
      }
      CoherentAlways(c, s', ls[1..]);
    }
  }

  lemma SettledMirrors(k: Cache)
    requires Coherent(k) && k.worker.None? && k.stream.None?
    ensures Mirrors(Book(k.mem, k.rows)) && MemoryActive(k.mem) <= ActiveIds(k.rows)
  {}

  /**
   In every interleaving free of such races the tracker stays a faithful cache: rows not being
   written agree with memory throughout, and with no write outstanding a restart loses no active order.
   */
  lemma CoherentWithoutRaces(c: Config, b: Book, now: int, ls: seq<Label>)
    requires Usable(c) && Mirrors(b) && RaceFree(c, Gateway.Boot(c, b, now), ls)
    ensures var k := CacheOf(Run(c, Gateway.Boot(c, b, now), ls));
            && Coherent(k)
            && (k.worker.None? && k.stream.None? ==>
                  Mirrors(Book(k.mem, k.rows)) && MemoryActive(k.mem) <= MemoryActive(Tracker.Boot(k.rows).mem))
  {
    hide CacheOf, RaceFree, Run;
    var s0 := Gateway.Boot(c, b, now);
    BootCoherent(c, b, now);
    CoherentAlways(c, s0, ls);
    var k := CacheOf(Run(c, s0, ls));
    if k.worker.None? && k.stream.None? {
      SettledMirrors(k);
      BootMirrors(k.rows);
    }
  }

  lemma BootCoherent(c: Config, b: Book, now: int)
    requires Mirrors(b)
    ensures Coherent(CacheOf(Gateway.Boot(c, b, now)))
  {}

  // ---------------------------------------------------------- races, over every run

  datatype Writer = Intent | Fills

  /**
   What a run did to one order: the state each worker last asked for, whose request was the last to
   reach memory, and whose the last to reach the row.
   */
  datatype Track = Track(intent: Option<OrderState>, fills: Option<OrderState>,
                         inMemory: Option<Writer>, inTable: Option<Writer>)

  const UNTOUCHED := Track(None, None, None, None)

  predicate Starts(before: Option<Write>, after: Option<Write>, id: string) {
    before.None? && after.Some? && RowOf(after.value) == id
  }

  /** A write to a row that does not exist lands nowhere. */
  predicate Lands(before: Option<Write>, after: Option<Write>, rows: Rows, id: string) {
    before.Some? && after.None? && RowOf(before.value) == id && id in rows
  }

  function Observe(t: Track, k: Cache, k': Cache, id: string): Track {
    if Starts(k.worker, k'.worker, id) then t.(intent := Some(k'.worker.value.st), inMemory := Some(Intent))
    else if Starts(k.stream, k'.stream, id) then t.(fills := Some(k'.stream.value.st), inMemory := Some(Fills))
    else if Lands(k.worker, k'.worker, k'.rows, id) then t.(inTable := Some(Intent))
    else if Lands(k.stream, k'.stream, k'.rows, id) then t.(inTable := Some(Fills))
    else t
  }

  function History(c: Config, s: State, ls: seq<Label>, id: string, t: Track): Track
    requires Usable(c)
    decreases |ls|
  {
    if ls == [] then t
    else
      var s' := Next(c, s, ls[0]);
      History(c, s', ls[1..], id, Observe(t, CacheOf(s), CacheOf(s'), id))
  }

  function Asked(t: Track, w: Writer): Option<OrderState> {
    if w.Intent? then t.intent else t.fills
  }

  predicate Pends(w: Option<Write>, id: string) {
    w.Some? && RowOf(w.value) == id
  }

  /** Memory shows the last request to reach it. */
  ghost predicate MemoryTracked(b: Book, k: Cache, t: Track, id: string) {
    && (t.inMemory.None? ==>
          && t.inTable.None? && !Outstanding(k, id)
          && (id in k.mem.states <==> id in b.mem.states)
          && (id in k.mem.states ==> k.mem.states[id] == b.mem.states[id]))
    && (t.inMemory.Some? ==> id in k.mem.states && Asked(t, t.inMemory.value) == Some(k.mem.states[id]))
    && (Pends(k.worker, id) ==> t.intent == Some(k.worker.value.st))
    && (Pends(k.stream, id) ==> t.fills == Some(k.stream.value.st))
  }

  /** The row shows the last request to reach it, unless that worker is at it again. */
  ghost predicate TableTracked(b: Book, k: Cache, t: Track, id: string) {
    && (id in b.rows ==> id in k.rows)
    && (id in k.rows && t.inTable.None? ==>
          && id in b.rows && k.rows[id].state == b.rows[id].state
          && (t.inMemory.Some? ==> Outstanding(k, id)))
    && (t.inTable.Some? ==>
          && id in k.rows
          && (!Pends(if t.inTable == Some(Intent) then k.worker else k.stream, id) ==>
                Asked(t, t.inTable.value) == Some(k.rows[id].state)))
  }

  ghost predicate Tracked(b: Book, k: Cache, t: Track, id: string) {
    MemoryTracked(b, k, t, id) && TableTracked(b, k, t, id)
  }

  lemma WorkerMoveTracked(b: Book, k: Cache, k': Cache, t: Track, id: string, now: int)
    requires Tracked(b, k, t, id) && WorkerMoves(k, k', now)
    ensures Tracked(b, k', Observe(t, k, k', id), id)
  {}

  lemma StreamMoveTracked(b: Book, k: Cache, k': Cache, t: Track, id: string, now: int)
    requires Tracked(b, k, t, id) && StreamMoves(k, k', now)
    ensures Tracked(b, k', Observe(t, k, k', id), id)
  {}

  lemma {:induction false} TrackedAlways(c: Config, b: Book, s: State, ls: seq<Label>, id: string, t: Track)
    requires Usable(c) && Tracked(b, CacheOf(s), t, id)
    ensures Tracked(b, CacheOf(Run(c, s, ls)), History(c, s, ls, id, t), id)
    decreases |ls|
  {
    hide Next, Tracked, CacheOf, WorkerMoves, StreamMoves, Observe;
    if ls != [] {
      var s' := Next(c, s, ls[0]);
      var k, k' := CacheOf(s), CacheOf(s');
      StepMoves(c, s, ls[0]);
      if WorkerMoves(k, k', s.now) {
        WorkerMoveTracked(b, k, k', t, id, s.now);
      } else if StreamMoves(k, k', s.now) {
        StreamMoveTracked(b, k, k', t, id, s.now);
      } else {
        NothingObserved(t, k, id);
      }
      TrackedAlways(c, b, s', ls[1..], id, Observe(t, k, k', id));
    }
  }

  lemma NothingObserved(t: Track, k: Cache, id: string)
    ensures Observe(t, k, k, id) == t
  {}

  predicate Agrees(k: Cache, id: string) {
    id in k.rows && id in k.mem.states && k.rows[id].state == k.mem.states[id]
  }

  /** The worker last into memory was last into the table too, or both asked for the same. */
  predicate OrdersMatch(t: Track) {
    t.inMemory == t.inTable || t.intent == t.fills
  }

  /**
   Over every run and every interleaving: once nothing is outstanding for it, a row either was not
   touched, and is as the boot left it, or agrees with memory exactly when the two workers' last
   requests reached the table in the order they reached memory, or asked for the same state.
   */
  lemma SettledRowAgreesIff(c: Config, b: Book, now: int, ls: seq<Label>, id: string)
    requires Usable(c) && Mirrors(b)
    requires var k := CacheOf(Run(c, Gateway.Boot(c, b, now), ls)); id in k.rows && !Outstanding(k, id)
    ensures var k := CacheOf(Run(c, Gateway.Boot(c, b, now), ls));
            var t := History(c, Gateway.Boot(c, b, now), ls, id, UNTOUCHED);
            if t.inMemory.None? then Agrees(k, id) || (id !in k.mem.states && Terminal(k.rows[id].state))
            else Agrees(k, id) <==> OrdersMatch(t)
  {
    hide Run, Next;
    var s0 := Gateway.Boot(c, b, now);
    TrackedAlways(c, b, s0, ls, id, UNTOUCHED);
  }

  /**
   So a race can cost the restart guarantee: a streamed FILLED reaches memory before the worker's
   own SUBMITTED and the table after it; the tracker holds an active order the table calls finished.
   */
  lemma RaceHidesActiveOrder(c: Config, s: State, f: Fill)
    requires Usable(c) && s.pc.Busy? && s.pc.stage.AcceptMem? && s.stream.Idle?
    requires f.orderId == s.pc.o.id && f.status == Some(Filled)
    requires s.pc.o.id in s.rows && s.pc.o.id in s.mem.orders
    ensures var s' := Run(c, s, [Stream(f), Proceed, Proceed, StreamWork(true, false)]);
            s.pc.o.id in MemoryActive(s'.mem) && s.pc.o.id !in ActiveIds(s'.rows)
  {
    hide Run, Next, UpdateRow;
    var id := s.pc.o.id;
    var s1 := s.(mem := SetMem(s.mem, id, Filled), stream := StreamRow(f));
    FilledArrives(c, s, f);
    AcceptInMemory(c, s1);
    var s2 := Next(c, s1, Proceed);
    AcceptInTable(c, s2);
    var s3 := Next(c, s2, Proceed);
    FilledInTable(c, s3, f);
    var s4 := Next(c, s3, StreamWork(true, false));
    Walk(c, [s, s1, s2, s3, s4], [Stream(f), Proceed, Proceed, StreamWork(true, false)]);
    LastWriteWins(s.rows, id, s2.pc.stage.qty, f.quantity);
  }

  lemma LastWriteWins(rows: Rows, id: string, p: real, q: real)
    requires id in rows
    ensures id !in ActiveIds(UpdateRow(UpdateRow(rows, id, Submitted, p), id, Filled, q))
  {}

  lemma FilledArrives(c: Config, s: State, f: Fill)
    requires Usable(c) && s.stream.Idle? && f.status == Some(Filled)
    ensures Next(c, s, Stream(f)) == s.(mem := SetMem(s.mem, f.orderId, Filled), stream := StreamRow(f))
  {
    hide WorkStep, StreamStep, SetMem;
  }

  lemma FilledInTable(c: Config, s: State, f: Fill)
    requires Usable(c) && s.stream == StreamRow(f) && f.status == Some(Filled)
    ensures var s' := Next(c, s, StreamWork(true, false));
            s'.rows == UpdateRow(s.rows, f.orderId, Filled, f.quantity) && s'.mem == s.mem
  {
    hide WorkStep, UpdateRow;
  }

  lemma AcceptInTable(c: Config, s: State)
    requires Usable(c) && s.pc.Busy? && s.pc.stage.AcceptRow?
    ensures var s' := Next(c, s, Proceed);
            && s'.rows == UpdateRow(s.rows, s.pc.o.id, Submitted, s.pc.stage.qty)
            && s'.mem == s.mem && s'.stream == s.stream
  {
    hide Vet, Admit, Submit, Settle, StreamStep, UpdateRow;
  }

  lemma AcceptInMemory(c: Config, s: State)
    requires Usable(c) && s.pc.Busy? && s.pc.stage.AcceptMem? && Changes(s.mem, s.pc.o.id, Submitted)
    ensures var s' := Next(c, s, Proceed);
            && s'.mem == SetMem(s.mem, s.pc.o.id, Submitted) && s'.rows == s.rows && s'.stream == s.stream
            && s'.pc.Busy? && s'.pc.stage.AcceptRow? && s'.pc.o == s.pc.o
  {
    hide Vet, Admit, Submit, Settle, StateOnlyQty;
  }

  /** And that state is reached from an empty boot. */
  lemma RaceHappens(o: Order, g: Fill, f: Fill)
    requires Risk.ValidateOrderId(o.id).None? && f.orderId == o.id && f.status == Some(Filled)
    ensures var c := Lenient(None);
            var race := [Stream(f), Proceed, Proceed, StreamWork(true, false)];
            var s := Run(c, Empty(c), (ToExchange(o) + [Work(Some(g), true, false), Proceed]) + race);
            o.id in MemoryActive(s.mem) && o.id !in ActiveIds(s.rows)
  {
    hide Run, Next;
    var c := Lenient(None);
    var calls := [Work(Some(g), true, false), Proceed];
    var race := [Stream(f), Proceed, Proceed, StreamWork(true, false)];
    ReachExchange(c, o);
    RunSplits(c, Empty(c), ToExchange(o), calls);
    RunSplits(c, Empty(c), ToExchange(o) + calls, race);
    DirectCall(c, o, g);
    RaceHidesActiveOrder(c, Run(c, AtExchange(c, o), calls), f);
  }

  /** In direct mode the one call is made and answered. */
  lemma DirectCall(c: Config, o: Order, g: Fill)
    requires c == Lenient(None)
    ensures var s := Run(c, AtExchange(c, o), [Work(Some(g), true, false), Proceed]);
            && s.pc.Busy? && s.pc.o == o && s.pc.stage.AcceptMem? && s.stream.Idle?
            && o.id in s.rows && o.id in s.mem.orders
  {
    hide Run, Next, AtExchange;
    AtExchangeIs(c, o);
    AnsweredRun(c, o, g);
  }

  // ------------------------------------------------------------- finished orders

  /** The step brings a finished row back: a late SUBMITTED, a stored order admitted again, or a streamed status. */
  predicate Revives(s: State, l: Label, id: string) {
    || (l.Work? && s.pc.Busy? && s.pc.o.id == id && (s.pc.stage.AdmitRow? || s.pc.stage.AcceptRow?))
    || (l.StreamWork? && s.stream.StreamRow? && s.stream.fill.orderId == id && !Terminal(Reported(s.stream.fill)))
  }

  lemma FinishedRowRevivedIff(c: Config, s: State, l: Label, id: string)
    requires Usable(c) && id in s.rows && Terminal(s.rows[id].state)
    ensures var rows := Next(c, s, l).rows;
            id in rows && (Terminal(rows[id].state) <==> !Revives(s, l, id))
  {
    hide Next, Looks;
    StepEffect(c, s, l);
  }

  predicate StaysFinished(c: Config, s: State, ls: seq<Label>, id: string)
    requires Usable(c)
    decreases |ls|
  {
    && id in s.rows && Terminal(s.rows[id].state)
    && (ls != [] ==> StaysFinished(c, Next(c, s, ls[0]), ls[1..], id))
  }

  predicate NeverRevived(c: Config, s: State, ls: seq<Label>, id: string)
    requires Usable(c)
    decreases |ls|
  {
    ls != [] ==> !Revives(s, ls[0], id) && NeverRevived(c, Next(c, s, ls[0]), ls[1..], id)
  }

  /** Terminal states are absorbing over a run exactly when none of its steps is one of those three. */
  lemma {:induction false} TerminalAbsorbingIff(c: Config, s: State, ls: seq<Label>, id: string)
    requires Usable(c) && id in s.rows && Terminal(s.rows[id].state)
    ensures StaysFinished(c, s, ls, id) <==> NeverRevived(c, s, ls, id)
    decreases |ls|
  {
    hide Next, Revives;
    if ls != [] {
      FinishedRowRevivedIff(c, s, ls[0], id);
      if !Revives(s, ls[0], id) {
        TerminalAbsorbingIff(c, Next(c, s, ls[0]), ls[1..], id);
      }
    }
  }
}
