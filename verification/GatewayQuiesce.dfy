/** After the intake is closed, or while the operator's halt stands, at most one more order goes out. */
module GatewayQuiesce {
  import opened Exchange
  import opened Tracker
  import opened Gateway
  import opened GatewayFlow
  import opened GatewayOnce

  /** Adding an order as pending, or calling the exchange. */
  predicate Outgoing(ev: Event) {
    ev.Granted? || ev.Admitted? || ev.Sent?
  }

  /** From entry `k` on, everything outgoing belongs to delivery `d`. */
  ghost predicate OnlyFrom(log: seq<Entry>, k: nat, d: nat) {
    forall i :: k <= i < |log| && Outgoing(log[i].ev) ==> log[i].who == Delivery(d)
  }

  /** The order an outgoing event is about is the one its delivery fetched. */
  ghost predicate OwnOrder(s: State) {
    && (s.pc.Busy? ==> s.inbox != [] && s.pc.o == s.inbox[|s.inbox| - 1])
    && (forall i :: 0 <= i < |s.log| && Traded(s.log[i].ev) ==>
                      && s.log[i].who.Delivery? && 1 <= s.log[i].who.n <= |s.inbox|
                      && OrderIdOf(s.log[i].ev) == s.inbox[s.log[i].who.n - 1].id)
  }

  /** Outgoing events that name their order. */
  predicate Traded(ev: Event) {
    ev.Admitted? || ev.Sent?
  }

  function OrderIdOf(ev: Event): string
    requires Traded(ev)
  {
    if ev.Admitted? then ev.o.id else ev.parent
  }

  lemma OwnOrderStep(c: Config, s: State, l: Label)
    requires Usable(c) && OwnOrder(s)
    ensures OwnOrder(Next(c, s, l))
  {
    hide Next, Plan, Logged;
    StepFlows(c, s, l);
    var s' := Next(c, s, l);
    if s'.log != s.log {
      var e := Append(c, s, s');
    }
  }

  lemma {:induction false} OwnOrderAlways(c: Config, s: State, ls: seq<Label>)
    requires Usable(c) && OwnOrder(s)
    ensures OwnOrder(Run(c, s, ls))
    decreases |ls|
  {
    hide Next, OwnOrder;
    if ls != [] {
      OwnOrderStep(c, s, ls[0]);
      OwnOrderAlways(c, Next(c, s, ls[0]), ls[1..]);
    }
  }

  // ------------------------------------------------------------------------ drain

  /** Deliveries started, counting one that a fetch in progress may still bring. */
  function Started(s: State): nat {
    |s.inbox| + if s.pc.Fetching? then 1 else 0
  }

  /** A fetch in progress is the last, and only delivery `d` is still being worked on. */
  ghost predicate Draining(s: State, k: nat, d: nat) {
    && !s.intake && (s.pc.Busy? ==> s.inbox != [])
    && (s.pc.Busy? || s.pc.Fetching? ==> Started(s) == d)
    && k <= |s.log| && OnlyFrom(s.log, k, d)
  }

  lemma DrainStep(c: Config, s: State, l: Label, k: nat, d: nat)
    requires Usable(c) && Draining(s, k, d)
    ensures Draining(Next(c, s, l), k, d)
  {
    hide Next, Plan, Comes, Logged;
    StepFlows(c, s, l);
    StepEffect(c, s, l);
    var s' := Next(c, s, l);
    if s'.log != s.log {
      var e := Append(c, s, s');
    }
  }

  lemma {:induction false} DrainingAlways(c: Config, s: State, ls: seq<Label>, k: nat, d: nat)
    requires Usable(c) && Draining(s, k, d)
    ensures Draining(Run(c, s, ls), k, d)
    decreases |ls|
  {
    hide Next, Draining;
    if ls != [] {
      DrainStep(c, s, ls[0], k, d);
      DrainingAlways(c, Next(c, s, ls[0]), ls[1..], k, d);
    }
  }

  /** Any two outgoing order events from entry `k` on are about the same parent order. */
  ghost predicate OneParent(log: seq<Entry>, k: nat) {
    forall i, j :: k <= i < |log| && k <= j < |log| && Traded(log[i].ev) && Traded(log[j].ev) ==>
                     OrderIdOf(log[i].ev) == OrderIdOf(log[j].ev)
  }

  lemma OneDeliveryOneParent(s: State, k: nat, d: nat)
    requires OwnOrder(s) && OnlyFrom(s.log, k, d)
    ensures OneParent(s.log, k)
  {}

  /**
   Once the intake is closed, in every continuation all further grants, admissions and exchange calls
   belong to one delivery, the one already started or being fetched, and to its one parent order.
   */
  lemma DrainLetsOneThrough(c: Config, b: Book, now: int, before: seq<Label>, after: seq<Label>)
    requires Usable(c) && !Run(c, Gateway.Boot(c, b, now), before).intake
    ensures var s := Run(c, Gateway.Boot(c, b, now), before);
            var log := Run(c, s, after).log;
            OnlyFrom(log, |s.log|, Started(s)) && OneParent(log, |s.log|)
  {
    hide Run, Next, OwnOrder, OnlyFrom, OneParent;
    var s0 := Gateway.Boot(c, b, now);
    BootOwns(c, b, now);
    OwnOrderAlways(c, s0, before);
    var s := Run(c, s0, before);
    OwnOrderAlways(c, s, after);
    EmptyTail(s, |s.log|, Started(s));
    DrainingAlways(c, s, after, |s.log|, Started(s));
    OneDeliveryOneParent(Run(c, s, after), |s.log|, Started(s));
  }

  lemma BootOwns(c: Config, b: Book, now: int)
    ensures OwnOrder(Gateway.Boot(c, b, now))
  {}

  lemma EmptyTail(s: State, k: nat, d: nat)
    requires OwnOrder(s) && k == |s.log|
    ensures OnlyFrom(s.log, k, d) && (s.pc.Busy? ==> s.inbox != [])
  {}

  // ------------------------------------------------------------------------- halt

  /** Past the halt check on the way to the exchange. */
  predicate Live(st: Stage) {
    st.AtId? || st.AtDup? || Cleared(st) || st.AdmitRow? || st.Sending?
  }

  ghost predicate Halting(s: State, k: nat, d: nat) {
    && s.halted && (s.pc.Busy? ==> s.inbox != [])
    && (s.pc.Busy? && Live(s.pc.stage) ==> |s.inbox| == d)
    && k <= |s.log| && OnlyFrom(s.log, k, d)
  }

  lemma HaltStep(c: Config, s: State, l: Label, k: nat, d: nat)
    requires Usable(c) && Halting(s, k, d) && !l.Resume?
    ensures Halting(Next(c, s, l), k, d)
  {
    hide Next, Plan, Logged;
    StepFlows(c, s, l);
    StepEffect(c, s, l);
    var s' := Next(c, s, l);
    if s'.log != s.log {
      var e := Append(c, s, s');
    }
  }

  lemma {:induction false} HaltingAlways(c: Config, s: State, ls: seq<Label>, k: nat, d: nat)
    requires Usable(c) && Halting(s, k, d) && Resume !in ls
    ensures Halting(Run(c, s, ls), k, d)
    decreases |ls|
  {
    hide Next, Halting;
    if ls != [] {
      HaltStep(c, s, ls[0], k, d);
      HaltingAlways(c, Next(c, s, ls[0]), ls[1..], k, d);
    }
  }

  /**
   While a halt stands, in every continuation all further grants, admissions and exchange calls
   belong to the delivery that was at work when it was set, and to its one parent order.
   */
  lemma HaltLetsOneThrough(c: Config, b: Book, now: int, before: seq<Label>, after: seq<Label>)
    requires Usable(c) && Run(c, Gateway.Boot(c, b, now), before).halted && Resume !in after
    ensures var s := Run(c, Gateway.Boot(c, b, now), before);
            var log := Run(c, s, after).log;
            OnlyFrom(log, |s.log|, |s.inbox|) && OneParent(log, |s.log|)
  {
    hide Run, Next, OwnOrder, OnlyFrom, OneParent;
    var s0 := Gateway.Boot(c, b, now);
    BootOwns(c, b, now);
    OwnOrderAlways(c, s0, before);
    var s := Run(c, s0, before);
    OwnOrderAlways(c, s, after);
    EmptyTail(s, |s.log|, |s.inbox|);
    HaltingAlways(c, s, after, |s.log|, |s.inbox|);
    OneDeliveryOneParent(Run(c, s, after), |s.log|, |s.inbox|);
  }
}
