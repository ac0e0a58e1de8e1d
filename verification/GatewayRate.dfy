/** The limiter's bound carried to the exchange calls, over every interleaving. */
module GatewayRate {
  import opened Exchange
  import opened Tracker
  import opened Gateway
  import opened GatewayFlow
  import Limiter
  import Algo

  /** Exchange calls, and limiter grants, logged in the closed window. */
  function SentIn(log: seq<Entry>, from: int, to: int): nat {
    if log == [] then 0
    else
      var e := log[|log| - 1];
      SentIn(log[..|log| - 1], from, to) + if e.ev.Sent? && from <= e.at <= to then 1 else 0
  }

  function GrantedIn(log: seq<Entry>, from: int, to: int): nat {
    if log == [] then 0
    else
      var e := log[|log| - 1];
      GrantedIn(log[..|log| - 1], from, to) + if e.ev.Granted? && from <= e.at <= to then 1 else 0
  }

  lemma CountsGrow(log: seq<Entry>, e: Entry, from: int, to: int)
    ensures SentIn(log + [e], from, to) == SentIn(log, from, to) + if e.ev.Sent? && from <= e.at <= to then 1 else 0
    ensures GrantedIn(log + [e], from, to)
         == GrantedIn(log, from, to) + if e.ev.Granted? && from <= e.at <= to then 1 else 0
  {
    assert (log + [e])[..|log|] == log;
  }

  lemma {:induction false} NothingBefore(log: seq<Entry>, from: int, to: int)
    requires forall i :: 0 <= i < |log| ==> log[i].at < from
    ensures SentIn(log, from, to) == 0 && GrantedIn(log, from, to) == 0
  {
    if log != [] {
      NothingBefore(log[..|log| - 1], from, to);
    }
  }

  // ------------------------------------------------------------ the limiter's record

  /** The state's bucket is the replay of its recorded checks, and grants are what the log says. */
  ghost predicate Metered(c: Config, s: State, from: int, to: int) {
    && s.checks != [] && Limiter.Honest(c.rps, s.checks)
    && s.bucket == Limiter.Replay(c.rps, s.checks)
    && s.checks[|s.checks| - 1].at <= s.now
    && GrantedIn(s.log, from, to) == Limiter.CountIn(s.checks, from, to)
  }

  /** Either one check was made, and a grant is logged exactly if it succeeded, or the limiter was not touched. */
  ghost predicate MeterFlow(s: State, s': State) {
    || (s'.now == s.now && Looks(s, s'))
    || (&& s'.bucket == s.bucket && s'.checks == s.checks && s.now <= s'.now
        && (|| s'.log == s.log
            || (|s'.log| == |s.log| + 1 && s'.log[..|s.log|] == s.log && !s'.log[|s.log|].ev.Granted?)))
  }

  lemma MeterFlows(c: Config, s: State, l: Label)
    requires Usable(c) && (s.pc.Busy? ==> s.inbox != [])
    ensures MeterFlow(s, Next(c, s, l))
  {
    hide Next, Plan, Comes, Limiter.Grants, Limiter.Take, WorkerMoves, StreamMoves, CacheOf, Because;
    StepFlows(c, s, l);
    StepEffect(c, s, l);
  }

  lemma MeteredStep(c: Config, s: State, s': State, from: int, to: int)
    requires MeterFlow(s, s') && Metered(c, s, from, to)
    ensures Metered(c, s', from, to)
  {
    hide Limiter.Take, Limiter.Grants, GrantedIn, Limiter.CountIn;
    if s'.log != s.log {
      assert s'.log == s.log + [s'.log[|s.log|]];
      CountsGrow(s.log, s'.log[|s.log|], from, to);
    }
    if s'.checks != s.checks {
      CheckGrows(c, s, Limiter.Grants(s.bucket, s.now), from, to);
    }
  }

  lemma CheckGrows(c: Config, s: State, granted: bool, from: int, to: int)
    requires Metered(c, s, from, to) && granted == Limiter.Grants(s.bucket, s.now)
    ensures var h := s.checks + [Limiter.Check(s.now, granted)];
            && Limiter.Honest(c.rps, h) && Limiter.Replay(c.rps, h) == Limiter.Take(s.bucket, s.now)
            && Limiter.CountIn(h, from, to)
            == Limiter.CountIn(s.checks, from, to) + if granted && from <= s.now <= to then 1 else 0
  {
    hide Limiter.Take, Limiter.Grants, GrantedIn;
    var h := s.checks + [Limiter.Check(s.now, granted)];
    assert h[..|s.checks|] == s.checks;
  }

  // ------------------------------------------------------------- calls per grant

  /** The most calls one grant can lead to. */
  function CallsPerGrant(c: Config): nat {
    if c.algo.None? then 1 else Algo.SliceCount(c.algo.value)
  }

  /** Calls allowed in a window with `g` grants: those of each grant, and of one made before it. */
  function Budget(n: nat, g: nat): nat {
    n * (g + 1)
  }

  lemma BudgetGrows(n: nat, g: nat)
    ensures Budget(n, 0) == n && Budget(n, g + 1) == Budget(n, g) + n
  {}

  lemma PlanSize(c: Config, o: Order)
    requires Usable(c) && Plan(c, o).Some?
    ensures |Plan(c, o).value| == CallsPerGrant(c)
  {
    if c.algo.Some? && c.algo.value.algorithm.Vwap? {
      Algo.WeightsSound(c.algo.value);
    }
  }

  /** Calls the current delivery may still make on its grant. */
  function Remaining(c: Config, pc: Pc): int {
    if !pc.Busy? then 0
    else if pc.stage.AdmitMem? || pc.stage.AdmitRow? then CallsPerGrant(c)
    else if pc.stage.Sending? then CallsPerGrant(c) - pc.stage.next
    else 0
  }

  ghost predicate Rated(c: Config, s: State, from: int, to: int) {
    && (forall i :: 0 <= i < |s.log| ==> s.log[i].at <= s.now)
    && Remaining(c, s.pc) >= 0
    && SentIn(s.log, from, to) <= Budget(CallsPerGrant(c), GrantedIn(s.log, from, to))
    && (s.now <= to ==>
          SentIn(s.log, from, to) + Remaining(c, s.pc) <= Budget(CallsPerGrant(c), GrantedIn(s.log, from, to)))
  }

  /** Without a new grant the calls still owed never grow; a call uses one up. */
  lemma RemainingFlows(c: Config, s: State, s': State)
    requires Usable(c) && Flow(c, s, s') && Remaining(c, s.pc) >= 0
    ensures Remaining(c, s'.pc) >= 0
    ensures s'.log == s.log ==> Remaining(c, s'.pc) <= Remaining(c, s.pc)
    ensures s'.log != s.log ==>
              var ev := s'.log[|s.log|].ev;
              if ev.Granted? then Remaining(c, s.pc) == 0 && Remaining(c, s'.pc) == CallsPerGrant(c)
              else Remaining(c, s'.pc) <= Remaining(c, s.pc) - if ev.Sent? then 1 else 0
  {
    hide Plan, CallsPerGrant;
    if s.pc.Busy? && s.pc.stage.Sending? && Plan(c, s.pc.o).Some? {
      PlanSize(c, s.pc.o);
    }
  }

  lemma RatedStep(c: Config, s: State, s': State, from: int, to: int)
    requires Usable(c) && Flow(c, s, s') && Rated(c, s, from, to)
    ensures Rated(c, s', from, to)
  {
    hide Plan, Comes, CallsPerGrant, Remaining, Budget, SentIn, GrantedIn;
    RemainingFlows(c, s, s');
    var n, g := CallsPerGrant(c), GrantedIn(s.log, from, to);
    if s'.log != s.log {
      var e := s'.log[|s.log|];
      assert s'.log == s.log + [e];
      CountsGrow(s.log, e, from, to);
      BudgetGrows(n, g);
      if e.ev.Granted? && s.now < from {
        NothingBefore(s.log, from, to);
      }
    }
  }

  ghost predicate Steady(c: Config, s: State, from: int, to: int) {
    Metered(c, s, from, to) && Rated(c, s, from, to) && (s.pc.Busy? ==> s.inbox != [])
  }

  lemma SteadyStep(c: Config, s: State, l: Label, from: int, to: int)
    requires Usable(c) && Steady(c, s, from, to)
    ensures Steady(c, Next(c, s, l), from, to)
  {
    hide Next, Flow, MeterFlow, Metered, Rated;
    StepFlows(c, s, l);
    MeterFlows(c, s, l);
    MeteredStep(c, s, Next(c, s, l), from, to);
    RatedStep(c, s, Next(c, s, l), from, to);
  }

  lemma {:induction false} SteadyAlways(c: Config, s: State, ls: seq<Label>, from: int, to: int)
    requires Usable(c) && Steady(c, s, from, to)
    ensures Steady(c, Run(c, s, ls), from, to)
    decreases |ls|
  {
    hide Next, Steady;
    if ls != [] {
      SteadyStep(c, s, ls[0], from, to);
      SteadyAlways(c, Next(c, s, ls[0]), ls[1..], from, to);
    }
  }

  lemma BootSteady(c: Config, b: Book, now: int, from: int, to: int)
    ensures Steady(c, Gateway.Boot(c, b, now), from, to)
  {
    var h := [Limiter.Check(now, false)];
    assert h[..0] == [] && Limiter.CountIn(h, from, to) == 0;
    BudgetGrows(CallsPerGrant(c), 0);
  }

  /**
   In every interleaving, a window of length T sees at most n * (1 + rps * (1 + T)) exchange calls,
   where n is the number of calls per parent: one in direct mode.
   */
  lemma SubmissionRate(c: Config, b: Book, now: int, ls: seq<Label>, from: int, to: int)
    requires Usable(c) && c.rps >= 0.0 && from <= to
    ensures var sent := SentIn(Run(c, Gateway.Boot(c, b, now), ls).log, from, to);
            var bound := 1.0 + c.rps * (1.0 + (to - from) as real / 1_000_000_000.0);
            sent as real <= if c.algo.None? then bound else Algo.SliceCount(c.algo.value) as real * bound
  {
    hide Run, Steady, Limiter.Accrued, CallsPerGrant, Budget;
    var s0 := Gateway.Boot(c, b, now);
    var s := Run(c, s0, ls);
    BootSteady(c, b, now, from, to);
    SteadyAlways(c, s0, ls, from, to);
    RateOf(c, s, from, to, 1.0 + c.rps * (1.0 + (to - from) as real / 1_000_000_000.0));
  }

  /** What the invariant says of one state, for the bound written out. */
  lemma RateOf(c: Config, s: State, from: int, to: int, bound: real)
    requires Usable(c) && c.rps >= 0.0 && from <= to && Steady(c, s, from, to)
    requires bound == 1.0 + c.rps * (1.0 + (to - from) as real / 1_000_000_000.0)
    ensures SentIn(s.log, from, to) as real
         <= if c.algo.None? then bound else Algo.SliceCount(c.algo.value) as real * bound
  {
    hide Limiter.Accrued, Limiter.Honest, Limiter.Replay, Limiter.CountIn, SentIn, GrantedIn, Budget, Remaining;
    Limiter.WindowBound(c.rps, s.checks, from, to);
    Scaled(CallsPerGrant(c), GrantedIn(s.log, from, to), bound);
    assert 1.0 * bound == bound;
  }

  lemma Scaled(n: nat, g: nat, x: real)
    requires (g + 1) as real <= x
    ensures Budget(n, g) as real <= n as real * x
  {
    var m, d := n as real, x - (g + 1) as real;
    Algo.TimesSign(m, d);
    assert m * d == m * x - m * (g + 1) as real;
    assert Budget(n, g) as real == m * (g + 1) as real;
  }
}
