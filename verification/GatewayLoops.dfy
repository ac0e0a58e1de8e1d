/** The loops inside a delivery, publish retries and slices, and their place in the transition system. */
module GatewayLoops {
  import opened Exchange
  import opened Gateway
  import Algo
  import Ids

  // ------------------------------------------------------------------ publish retries

  datatype PublishResult = Delivered | Aborted | Exhausted

  /** What the loop meets: the broker's answer to each attempt, and whether the wait before it was cancelled. */
  datatype Weather = Weather(acks: seq<bool>, stops: seq<bool>)

  predicate Covers(w: Weather, retries: nat) {
    |w.acks| == |w.stops| == retries + 1
  }

  /** Attempt `i` is made: all before it failed, and no wait up to it was cancelled. */
  predicate Tried(w: Weather, i: nat)
    requires i < |w.acks| == |w.stops|
  {
    (forall j :: 0 <= j < i ==> !w.acks[j]) && (forall j :: 1 <= j <= i ==> !w.stops[j])
  }

  /** How the loop ends: at most `retries + 1` attempts, each made only after failures and no cancelled wait. */
  predicate Ends(w: Weather, retries: nat, r: PublishResult, attempts: nat)
    requires Covers(w, retries)
  {
    && 1 <= attempts <= retries + 1 && Tried(w, attempts - 1)
    && (r.Delivered? <==> w.acks[attempts - 1])
    && (r.Exhausted? <==> attempts == retries + 1 && !w.acks[retries])
    && (r.Aborted? <==> attempts <= retries && !w.acks[attempts - 1] && w.stops[attempts])
  }

  function Doubled(backoff: int, k: nat): int {
    if k == 0 then backoff else 2 * Doubled(backoff, k - 1)
  }

  /**
   Delivered exactly when an attempt that is made succeeds; the waits between attempts double from
   `initial`.
   */
  method PublishFillWithRetry(retries: nat, initial: int, w: Weather)
    returns (r: PublishResult, attempts: nat, waits: seq<int>)
    requires Covers(w, retries)
    ensures Ends(w, retries, r, attempts)
    ensures r.Delivered? <==> exists i :: 0 <= i <= retries && Tried(w, i) && w.acks[i]
    ensures |waits| == if initial > 0 then attempts - 1 else 0
    ensures forall k :: 0 <= k < |waits| ==> waits[k] == Doubled(initial, k)
    ensures |waits| > 0 ==> waits[0] == initial
    ensures forall k :: 1 <= k < |waits| ==> waits[k] == 2 * waits[k - 1]
  {
    var backoff := initial;
    waits := [];
    attempts := 0;
    while attempts <= retries
      invariant attempts <= retries + 1
      invariant forall j :: 0 <= j < attempts ==> !w.acks[j]
      invariant forall j :: 1 <= j < attempts ==> !w.stops[j]
      invariant |waits| == if initial > 0 && attempts > 0 then attempts - 1 else 0
      invariant initial > 0 ==> backoff == Doubled(initial, |waits|) > 0
      invariant initial <= 0 ==> backoff == initial
      invariant forall k :: 0 <= k < |waits| ==> waits[k] == Doubled(initial, k)
    {
      if attempts > 0 {
        if w.stops[attempts] {
          return Aborted, attempts, waits;
        }
        if backoff > 0 {
          waits := waits + [backoff];
          backoff := backoff * 2;
        }
      }
      attempts := attempts + 1;
      if w.acks[attempts - 1] {
        assert Tried(w, attempts - 1);
        return Delivered, attempts, waits;
      }
    }
    r := Exhausted;
  }

  // -------------------------------------------------- the same loop in the transition system

  /** The intent worker's steps from its `i`-th attempt on. */
  function Script(w: Weather, retries: nat, i: nat): seq<Label>
    requires Covers(w, retries) && i <= retries + 1
    decreases retries + 1 - i
  {
    if i > retries then [Work(None, false, false)]
    else if i > 0 && w.stops[i] then [Work(None, false, true)]
    else [Work(None, w.acks[i], false)] + if w.acks[i] then [] else Script(w, retries, i + 1)
  }

  /** `n` failed attempts in the log. */
  function Failures(who: Actor, at: int, f: Fill, n: nat): seq<Entry> {
    if n == 0 then [] else [Entry(who, at, Published(f, false))] + Failures(who, at, f, n - 1)
  }

  /** Where the loop leaves the worker, having made attempts `i` up to `attempts`. */
  function Outcome(s: State, o: Order, tried: seq<Attempt>, f: Fill, i: nat, r: PublishResult, attempts: nat): State
    requires i <= attempts && (r.Delivered? ==> i < attempts)
  {
    var me := Delivery(|s.inbox|);
    if r.Delivered? then
      Goto(s.(log := s.log + Failures(me, s.now, f, attempts - 1 - i) + [Entry(me, s.now, Published(f, true))]),
           o, Committing(Confirmed(tried, f, attempts - 1)))
    else
      s.(log := s.log + Failures(me, s.now, f, attempts - i) + [Entry(me, s.now, GaveUp)], pc := Top)
  }

  /** One step of the worker while it publishes. */
  lemma PublishStep(c: Config, s: State, o: Order, tried: seq<Attempt>, f: Fill, i: nat, ok: bool, stop: bool)
    requires Usable(c) && s.pc == Busy(o, Publishing(tried, f, i)) && (stop ==> !s.alive)
    ensures Next(c, s, Work(None, ok, stop)) ==
            if i > c.retries || (i > 0 && stop) then Outcome(s, o, tried, f, i, Exhausted, i)
            else if ok then Outcome(s, o, tried, f, i, Delivered, i + 1)
            else Failing(s, o, tried, f, i)
  {
    assert s.log + [] == s.log;
  }

  function Failing(s: State, o: Order, tried: seq<Attempt>, f: Fill, i: nat): State {
    Goto(s.(log := s.log + [Entry(Delivery(|s.inbox|), s.now, Published(f, false))]), o, Publishing(tried, f, i + 1))
  }

  /** Failing once and then going on is one longer run of failures. */
  lemma OutcomeAfterFailure(s: State, o: Order, tried: seq<Attempt>, f: Fill, i: nat, r: PublishResult, attempts: nat)
    requires i + 1 <= attempts && (r.Delivered? ==> i + 1 < attempts)
    ensures Outcome(Failing(s, o, tried, f, i), o, tried, f, i + 1, r, attempts)
         == Outcome(s, o, tried, f, i, r, attempts)
  {
    var n := if r.Delivered? then attempts - 2 - i else attempts - 1 - i;
    var me := Delivery(|s.inbox|);
    assert Failing(s, o, tried, f, i).log + Failures(me, s.now, f, n) == s.log + Failures(me, s.now, f, n + 1);
  }

  /** Played step by step in the transition system, the loop ends in exactly the state its result says. */
  lemma {:induction false} PublishLoopIsTheTransitions(c: Config, s: State, o: Order, tried: seq<Attempt>, f: Fill,
                                                       w: Weather, i: nat, r: PublishResult, attempts: nat)
    requires Usable(c) && Covers(w, c.retries) && Ends(w, c.retries, r, attempts)
    requires i <= attempts && (i == attempts ==> !r.Delivered?)
    requires s.pc == Busy(o, Publishing(tried, f, i)) && (s.alive ==> forall j :: 1 <= j < |w.stops| ==> !w.stops[j])
    ensures Run(c, s, Script(w, c.retries, i)) == Outcome(s, o, tried, f, i, r, attempts)
    decreases c.retries + 1 - i
  {
    hide Next, Outcome;
    var ls := Script(w, c.retries, i);
    PublishStep(c, s, o, tried, f, i, ls[0].ok, ls[0].stop);
    var s' := Next(c, s, ls[0]);
    assert Run(c, s, ls) == Run(c, s', ls[1..]);
    if i < attempts && !w.acks[i] {
      assert s' == Failing(s, o, tried, f, i);
      assert ls[1..] == Script(w, c.retries, i + 1);
      PublishLoopIsTheTransitions(c, s', o, tried, f, w, i + 1, r, attempts);
      OutcomeAfterFailure(s, o, tried, f, i, r, attempts);
    } else {
      assert ls[1..] == [];
      if !r.Delivered? {
        GivingUpAlike(s, o, tried, f, i, r, attempts);
      }
    }
  }

  lemma GivingUpAlike(s: State, o: Order, tried: seq<Attempt>, f: Fill, i: nat, r: PublishResult, attempts: nat)
    requires i <= attempts && !r.Delivered?
    ensures Outcome(s, o, tried, f, i, r, attempts) == Outcome(s, o, tried, f, i, Exhausted, attempts)
  {}

  // The fills worker calls the same loop, with no commit to follow.

  function StreamScript(w: Weather, retries: nat, i: nat): seq<Label>
    requires Covers(w, retries) && i <= retries + 1
    decreases retries + 1 - i
  {
    if i > retries then [StreamWork(false, false)]
    else if i > 0 && w.stops[i] then [StreamWork(false, true)]
    else [StreamWork(w.acks[i], false)] + if w.acks[i] then [] else StreamScript(w, retries, i + 1)
  }

  function StreamOutcome(s: State, f: Fill, i: nat, r: PublishResult, attempts: nat): State
    requires i <= attempts && (r.Delivered? ==> i < attempts)
  {
    s.(log := s.log
            + (if r.Delivered?
               then Failures(Streamer, s.now, f, attempts - 1 - i) + [Entry(Streamer, s.now, Published(f, true))]
               else Failures(Streamer, s.now, f, attempts - i)),
       stream := Idle)
  }

  function StreamFailing(s: State, f: Fill, i: nat): State {
    s.(log := s.log + [Entry(Streamer, s.now, Published(f, false))], stream := StreamPublish(f, i + 1))
  }

  lemma StreamPublishStep(c: Config, s: State, f: Fill, i: nat, ok: bool, stop: bool)
    requires Usable(c) && s.stream == StreamPublish(f, i) && (stop ==> !s.alive)
    ensures Next(c, s, StreamWork(ok, stop)) ==
            if i > c.retries || (i > 0 && stop) then StreamOutcome(s, f, i, Exhausted, i)
            else if ok then StreamOutcome(s, f, i, Delivered, i + 1)
            else StreamFailing(s, f, i)
  {
    hide WorkStep;
    assert s.log + [] == s.log;
  }

  lemma StreamOutcomeAfterFailure(s: State, f: Fill, i: nat, r: PublishResult, attempts: nat)
    requires i + 1 <= attempts && (r.Delivered? ==> i + 1 < attempts)
    ensures StreamOutcome(StreamFailing(s, f, i), f, i + 1, r, attempts) == StreamOutcome(s, f, i, r, attempts)
  {
    var n := if r.Delivered? then attempts - 2 - i else attempts - 1 - i;
    assert StreamFailing(s, f, i).log + Failures(Streamer, s.now, f, n) == s.log + Failures(Streamer, s.now, f, n + 1);
  }

  /** A streamed fill is published by the very same loop: the log gains its attempts, and the worker is free again. */
  lemma {:induction false} StreamLoopIsTheTransitions(c: Config, s: State, f: Fill, w: Weather, i: nat,
                                                      r: PublishResult, attempts: nat)
    requires Usable(c) && Covers(w, c.retries) && Ends(w, c.retries, r, attempts)
    requires i <= attempts && (i == attempts ==> !r.Delivered?)
    requires s.stream == StreamPublish(f, i) && (s.alive ==> forall j :: 1 <= j < |w.stops| ==> !w.stops[j])
    ensures Run(c, s, StreamScript(w, c.retries, i)) == StreamOutcome(s, f, i, r, attempts)
    decreases c.retries + 1 - i
  {
    hide Next;
    var ls := StreamScript(w, c.retries, i);
    StreamPublishStep(c, s, f, i, ls[0].ok, ls[0].stop);
    var s' := Next(c, s, ls[0]);
    assert Run(c, s, ls) == Run(c, s', ls[1..]);
    if i < attempts && !w.acks[i] {
      assert ls[1..] == StreamScript(w, c.retries, i + 1);
      StreamLoopIsTheTransitions(c, s', f, w, i + 1, r, attempts);
      StreamOutcomeAfterFailure(s, f, i, r, attempts);
    } else {
      assert ls[1..] == [];
    }
  }

  // -------------------------------------------------------------------------- slices

  /**
   The worker's steps through slices `i` on: one per slice, then one to sum up.  The submission is
   cancelled before slice `stop`, never if `stop` is the slice count or 0.
   */
  function SliceScript(answers: seq<Option<Fill>>, i: nat, stop: nat): seq<Label>
    requires i <= |answers|
    decreases |answers| - i
  {
    if i == |answers| then [Work(None, true, false)]
    else if 0 < i == stop then [Work(None, true, true)]
    else [Work(answers[i], true, false)] + SliceScript(answers, i + 1, stop)
  }

  ghost predicate Slicing(c: Config, o: Order, qtys: seq<real>) {
    && Usable(c) && c.algo.Some?
    && Algo.Quantities(c.algo.value, o.quantity) == Some(qtys)
  }

  /** The calls made and the answers collected through the first `i` slices are the loop's. */
  ghost predicate InStep(s: State, o: Order, qtys: seq<real>, answers: seq<Option<Fill>>, i: nat)
    requires i <= |qtys| == |answers|
  {
    s.pc.Busy? && s.pc.o == o && s.pc.stage.Sending? && s.pc.stage.next == i
    && Answers(s.pc.stage.tried) == Algo.FillsOf(qtys, answers, i)
  }

  lemma AnswersOneMore(tried: seq<Attempt>, a: Attempt)
    ensures Answers(tried + [a]) == Answers(tried) + if a.answer.Some? then [a.answer.value] else []
  {
    assert (tried + [a])[..|tried|] == tried;
  }

  lemma PlanQuantities(c: Config, o: Order, qtys: seq<real>)
    requires Slicing(c, o, qtys)
    ensures Plan(c, o).Some? && |Plan(c, o).value| == |qtys|
    ensures forall i :: 0 <= i < |qtys| ==> Plan(c, o).value[i] == o.(id := Ids.SliceId(o.id, i), quantity := qtys[i])
  {}

  lemma SendingStep(c: Config, s: State, answer: Option<Fill>, ok: bool, stop: bool)
    requires Usable(c) && s.pc.Busy? && s.pc.stage.Sending?
    ensures Next(c, s, Work(answer, ok, stop)) == Submit(c, s, s.pc.o, s.pc.stage, answer, stop)
  {
    hide Vet, Admit, Submit, Record, Settle;
  }

  lemma SliceStep(c: Config, s: State, o: Order, qtys: seq<real>, answers: seq<Option<Fill>>, i: nat)
    requires Slicing(c, o, qtys) && i < |qtys| == |answers| && InStep(s, o, qtys, answers, i)
    ensures InStep(Next(c, s, Work(answers[i], true, false)), o, qtys, answers, i + 1)
  {
    hide Next, Emit, Plan, Answers, Usable, Algo.Quantities;
    PlanQuantities(c, o, qtys);
    var tried := s.pc.stage.tried;
    AnswersOneMore(tried, Attempt(i, Plan(c, o).value[i], answers[i]));
    SendingStep(c, s, answers[i], true, false);
  }

  lemma SlicesSumUp(c: Config, s: State, o: Order, qtys: seq<real>, answers: seq<Option<Fill>>)
    requires Slicing(c, o, qtys) && |qtys| == |answers| && InStep(s, o, qtys, answers, |qtys|)
    ensures Next(c, s, Work(None, true, false)).pc
         == Busy(o, AcceptMem(s.pc.stage.tried, Algo.Aggregate(Algo.FillsOf(qtys, answers, |qtys|))))
  {
    hide Next, Emit, Plan, Answers, Usable, Algo.Quantities, Algo.Aggregate;
    PlanQuantities(c, o, qtys);
    SendingStep(c, s, None, true, false);
  }

  lemma SlicesCut(c: Config, s: State, o: Order, qtys: seq<real>, answers: seq<Option<Fill>>, i: nat)
    requires Slicing(c, o, qtys) && 0 < i < |qtys| == |answers| && InStep(s, o, qtys, answers, i)
    ensures Next(c, s, Work(None, true, true)).pc == Busy(o, FailMem(s.pc.stage.tried))
  {
    hide Next, Emit, Plan, Answers, Usable, Algo.Quantities, Algo.Aggregate;
    PlanQuantities(c, o, qtys);
    SendingStep(c, s, None, true, true);
  }

  /** Where the slice loop leaves the worker: with the aggregate, or failed if it was cancelled. */
  ghost predicate Sliced(pc: Pc, o: Order, qtys: seq<real>, answers: seq<Option<Fill>>, stop: nat)
    requires stop <= |qtys| == |answers|
  {
    && pc.Busy? && pc.o == o
    && (if 0 < stop < |qtys|
        then pc.stage.FailMem? && Answers(pc.stage.tried) == Algo.FillsOf(qtys, answers, stop)
        else
          && pc.stage.AcceptMem? && Answers(pc.stage.tried) == Algo.FillsOf(qtys, answers, |qtys|)
          && pc.stage.fill == Algo.Aggregate(Algo.FillsOf(qtys, answers, |qtys|)))
  }

  /**
   Played step by step in the transition system, the slice loop collects exactly the fills
   `Algo.ExecuteSlices` collects from the same answers, and accepts the order with their aggregate,
   or fails it if the loop was cut short.
   */
  lemma {:induction false} SliceLoopIsTheTransitions(
    c: Config, s: State, o: Order, qtys: seq<real>, answers: seq<Option<Fill>>, i: nat, stop: nat)
    requires Slicing(c, o, qtys) && i <= |qtys| == |answers| && stop <= |qtys| && InStep(s, o, qtys, answers, i)
    requires 0 < stop < |qtys| ==> i <= stop
    ensures Sliced(Run(c, s, SliceScript(answers, i, stop)).pc, o, qtys, answers, stop)
    decreases |qtys| - i
  {
    hide Next, Usable, Algo.Quantities, Answers, Algo.Aggregate, Algo.FillsOf;
    var ls := SliceScript(answers, i, stop);
    var s' := Next(c, s, ls[0]);
    assert Run(c, s, ls) == Run(c, s', ls[1..]);
    if i == |qtys| {
      SlicesSumUp(c, s, o, qtys, answers);
      assert ls[1..] == [];
    } else if 0 < i == stop {
      SlicesCut(c, s, o, qtys, answers, i);
      assert ls[1..] == [];
    } else {
      SliceStep(c, s, o, qtys, answers, i);
      assert ls[1..] == SliceScript(answers, i + 1, stop);
      SliceLoopIsTheTransitions(c, s', o, qtys, answers, i + 1, stop);
    }
  }
}
