/** No client order ID reaches the exchange twice within one process, whatever the interleaving. */
module GatewayOnce {
  import opened Exchange
  import opened Tracker
  import opened Gateway
  import opened GatewayFlow
  import Ids

  function AdmittedIds(log: seq<Entry>): set<string> {
    set i | 0 <= i < |log| && log[i].ev.Admitted? :: log[i].ev.o.id
  }

  /** The client order ID of one exchange call. */
  function ChildId(c: Config, parent: string, index: nat): string {
    if c.algo.None? then parent else Ids.SliceId(parent, index)
  }

  /** Events only a delivery that passed the duplicate check logs. */
  predicate Past(ev: Event) {
    || ev.Granted? || ev.Throttled? || ev.Admitted? || ev.Sent?
    || ev.Failed? || ev.Accepted? || ev.Published? || ev.GaveUp?
  }

  /** Calls logged for an order have an index below `next`. */
  ghost predicate SentBelow(log: seq<Entry>, id: string, next: nat) {
    forall i :: 0 <= i < |log| && log[i].ev.Sent? && log[i].ev.parent == id ==> log[i].ev.attempt.index < next
  }

  /** Whoever admitted this ID is `who`. */
  ghost predicate OnlyAdmittedBy(log: seq<Entry>, id: string, who: Actor) {
    forall i :: 0 <= i < |log| && log[i].ev.Admitted? && log[i].ev.o.id == id ==> log[i].who == who
  }

  /** Inside a delivery: what its stage says about the admissions of and calls for its order. */
  ghost predicate StageOnce(s: State) {
    s.pc.Busy? ==>
      var o, st := s.pc.o, s.pc.stage;
      && s.inbox != [] && o == s.inbox[|s.inbox| - 1]
      && (Cleared(st) ==> o.id !in AdmittedIds(s.log))
      && (InFlight(st) ==> o.id in AdmittedIds(s.log) && OnlyAdmittedBy(s.log, o.id, Delivery(|s.inbox|)))
      && (st.AdmitRow? ==> SentBelow(s.log, o.id, 0))
      && (st.Sending? ==> SentBelow(s.log, o.id, st.next))
  }

  ghost predicate AdmissionsOnce(s: State) {
    && (forall i :: 0 <= i < |s.log| && s.log[i].ev.Admitted? ==> s.log[i].ev.o.id in s.mem.states)
    && (forall i, j :: 0 <= i < j < |s.log| && s.log[i].ev.Admitted? && s.log[j].ev.Admitted? ==>
                         s.log[i].ev.o.id != s.log[j].ev.o.id)
  }

  /** A call, well labelled and for an admitted order. */
  ghost predicate CallOk(c: Config, admitted: set<string>, ev: Event)
    requires ev.Sent?
  {
    && ev.parent in admitted
    && ev.attempt.child.id == ChildId(c, ev.parent, ev.attempt.index)
    && (c.algo.None? ==> ev.attempt.index == 0)
  }

  predicate SameCall(a: Event, b: Event)
    requires a.Sent? && b.Sent?
  {
    a.parent == b.parent && a.attempt.index == b.attempt.index
  }

  ghost predicate CallsOnce(c: Config, s: State) {
    && (forall i :: 0 <= i < |s.log| && s.log[i].ev.Sent? ==> CallOk(c, AdmittedIds(s.log), s.log[i].ev))
    && (forall i, j :: 0 <= i < j < |s.log| && s.log[i].ev.Sent? && s.log[j].ev.Sent? ==>
                         !SameCall(s.log[i].ev, s.log[j].ev))
  }

  /** After an order is admitted, no other delivery of the same ID gets past the duplicate check. */
  ghost predicate NoReplay(s: State) {
    && (forall i :: 0 <= i < |s.log| && s.log[i].who.Delivery? ==> 1 <= s.log[i].who.n <= |s.inbox|)
    && (forall i, j :: 0 <= i < j < |s.log| && s.log[i].ev.Admitted? && s.log[j].who.Delivery? && Past(s.log[j].ev)
                       && s.log[j].who != s.log[i].who ==>
                         s.inbox[s.log[j].who.n - 1].id != s.log[i].ev.o.id)
  }

  ghost predicate Once(c: Config, s: State) {
    StageOnce(s) && AdmissionsOnce(s) && CallsOnce(c, s) && NoReplay(s)
  }

  lemma PlanIds(c: Config, o: Order, i: nat)
    requires Usable(c) && Plan(c, o).Some? && i < |Plan(c, o).value|
    ensures Plan(c, o).value[i].id == ChildId(c, o.id, i) && (c.algo.None? ==> i == 0)
  {}

  lemma AdmittedGrow(log: seq<Entry>, e: Entry)
    ensures AdmittedIds(log + [e]) == AdmittedIds(log) + if e.ev.Admitted? then {e.ev.o.id} else {}
  {
    var log' := log + [e];
    forall id | id in AdmittedIds(log)
      ensures id in AdmittedIds(log')
    {
      var i :| 0 <= i < |log| && log[i].ev.Admitted? && log[i].ev.o.id == id;
      assert log'[i].ev.Admitted?;
    }
    if e.ev.Admitted? {
      assert log'[|log|].ev.Admitted?;
    }
  }

  lemma Append(c: Config, s: State, s': State) returns (e: Entry)
    requires Usable(c) && Logged(c, s, s') && s'.log != s.log
    ensures s'.log == s.log + [e] && e == s'.log[|s.log|] && Explained(c, s, s', e)
    ensures AdmittedIds(s'.log) == AdmittedIds(s.log) + if e.ev.Admitted? then {e.ev.o.id} else {}
  {
    hide Explained;
    e := s'.log[|s.log|];
    AdmittedGrow(s.log, e);
  }

  lemma AdmissionsStep(c: Config, s: State, s': State)
    requires Usable(c) && Flow(c, s, s') && StageOnce(s) && AdmissionsOnce(s)
    ensures AdmissionsOnce(s')
  {
    hide Comes, Plan, Logged;
    if s'.log != s.log {
      var e := Append(c, s, s');
    }
  }

  lemma CallsStep(c: Config, s: State, s': State)
    requires Usable(c) && Flow(c, s, s') && StageOnce(s) && CallsOnce(c, s)
    ensures CallsOnce(c, s')
  {
    hide Comes, Plan, ChildId, Logged, AdmittedIds;
    if s'.log != s.log {
      var e := Append(c, s, s');
      if e.ev.Sent? {
        PlanIds(c, s.pc.o, s.pc.stage.next);
        assert CallOk(c, AdmittedIds(s.log), e.ev);
      }
    }
  }

  lemma NoReplayStep(c: Config, s: State, s': State)
    requires Usable(c) && Flow(c, s, s') && StageOnce(s) && NoReplay(s)
    ensures NoReplay(s')
  {
    hide Comes, Plan, Logged;
    if s'.log != s.log {
      var e := Append(c, s, s');
    }
  }

  lemma StageOnceStep(c: Config, s: State, s': State)
    requires Usable(c) && Flow(c, s, s') && StageOnce(s) && AdmissionsOnce(s) && CallsOnce(c, s)
    ensures StageOnce(s')
  {
    hide Plan, ChildId, Logged, AdmittedIds;
    if s'.log != s.log {
      var e := Append(c, s, s');
    }
    if s'.pc.Busy? {
      var o, st := s'.pc.o, s'.pc.stage;
      if Cleared(st) && s'.pc != s.pc && st.AtRisk? {
        NotYetAdmitted(s, o.id);
      }
      if st.AdmitRow? && s'.pc != s.pc {
        NotYetSent(c, s, o.id);
        NobodyAdmitted(s.log, o.id, Delivery(|s.inbox|));
      }
    }
  }

  lemma NotYetAdmitted(s: State, id: string)
    requires AdmissionsOnce(s) && id !in s.mem.states
    ensures id !in AdmittedIds(s.log)
  {}

  lemma NobodyAdmitted(log: seq<Entry>, id: string, who: Actor)
    requires id !in AdmittedIds(log)
    ensures OnlyAdmittedBy(log, id, who)
  {}

  lemma NotYetSent(c: Config, s: State, id: string)
    requires CallsOnce(c, s) && id !in AdmittedIds(s.log)
    ensures SentBelow(s.log, id, 0)
  {}

  lemma OnceStep(c: Config, s: State, l: Label)
    requires Usable(c) && Once(c, s)
    ensures Once(c, Next(c, s, l))
  {
    hide Next, Flow, AdmissionsOnce, CallsOnce, NoReplay;
    StepFlows(c, s, l);
    var s' := Next(c, s, l);
    hide StageOnce;
    StageOnceStep(c, s, s');
    AdmissionsStep(c, s, s');
    CallsStep(c, s, s');
    NoReplayStep(c, s, s');
  }

  lemma {:induction false} OnceAlways(c: Config, s: State, ls: seq<Label>)
    requires Usable(c) && Once(c, s)
    ensures Once(c, Run(c, s, ls))
    decreases |ls|
  {
    hide Once, Next;
    if ls != [] {
      OnceStep(c, s, ls[0]);
      OnceAlways(c, Next(c, s, ls[0]), ls[1..]);
    }
  }

  /** In every interleaving, two exchange calls never carry the same client order ID. */
  lemma AtMostOncePerOrderId(c: Config, b: Book, now: int, ls: seq<Label>, i: nat, j: nat)
    requires Usable(c)
    requires var log := Run(c, Gateway.Boot(c, b, now), ls).log;
             i < j < |log| && log[i].ev.Sent? && log[j].ev.Sent?
    ensures var log := Run(c, Gateway.Boot(c, b, now), ls).log;
            log[i].ev.attempt.child.id != log[j].ev.attempt.child.id
  {
    var s0 := Gateway.Boot(c, b, now);
    OnceAlways(c, s0, ls);
    var s := Run(c, s0, ls);
    var a, b := s.log[i].ev, s.log[j].ev;
    assert CallOk(c, AdmittedIds(s.log), a) && CallOk(c, AdmittedIds(s.log), b) && !SameCall(a, b);
    if c.algo.Some? && a.attempt.child.id == b.attempt.child.id {
      Ids.SliceIdInjective(a.parent, a.attempt.index, b.parent, b.attempt.index);
    }
  }

  /**
   A redelivery is swallowed: once an order was admitted, any other delivery of its ID neither
   submits nor publishes.  In particular a fill whose publish was given up, and whose offset was
   left uncommitted so that the intent comes again, is never published by that redelivery.
   */
  lemma RedeliveryIsSwallowed(c: Config, b: Book, now: int, ls: seq<Label>, i: nat, j: nat)
    requires Usable(c)
    requires var s := Run(c, Gateway.Boot(c, b, now), ls);
             && i < j < |s.log| && s.log[i].ev.Admitted?
             && s.log[j].who.Delivery? && 1 <= s.log[j].who.n <= |s.inbox| && s.log[j].who != s.log[i].who
             && s.inbox[s.log[j].who.n - 1].id == s.log[i].ev.o.id
    ensures var s := Run(c, Gateway.Boot(c, b, now), ls); !Past(s.log[j].ev)
  {
    OnceAlways(c, Gateway.Boot(c, b, now), ls);
  }
}
