/** What becomes of the quantity the exchange filled: published, given up on, or committed away. */
module GatewayFate {
  import opened Exchange
  import opened Tracker
  import opened Gateway
  import opened GatewayTrace
  import opened GatewayWitness
  import opened GatewayLoops
  import opened GatewayFlow
  import Algo
  import Sums
  import Ids
  import Reconcile
  import Risk

  // ---------------------------------------------------------------- reading a word

  ghost predicate Commits(word: seq<Event>) {
    exists ev :: ev in word && ev.Committed?
  }

  ghost predicate Confirms(word: seq<Event>) {
    exists ev :: ev in word && ev.Published? && ev.ok
  }

  predicate Answering(ev: Event) {
    ev.Sent? && ev.attempt.answer.Some?
  }

  /** The exchange reports no negative quantity. */
  ghost predicate Sane(word: seq<Event>) {
    forall ev :: ev in word && Answering(ev) ==> ev.attempt.answer.value.quantity >= 0.0
  }

  /** The exchange filled something. */
  ghost predicate Fills(word: seq<Event>) {
    exists ev :: ev in word && Answering(ev) && ev.attempt.answer.value.quantity > 0.0
  }

  lemma {:induction false} SentAllHas(id: string, tried: seq<Attempt>)
    ensures forall ev :: ev in SentAll(id, tried) ==> ev.Sent? && ev.attempt in tried
    ensures forall a :: a in tried ==> Sent(id, a) in SentAll(id, tried)
  {
    if tried != [] {
      SentAllHas(id, tried[..|tried| - 1]);
      assert tried == tried[..|tried| - 1] + [tried[|tried| - 1]];
    }
  }

  lemma {:induction false} FailuresHave(f: Fill, n: nat)
    ensures forall ev :: ev in GatewayTrace.Failures(f, n) ==> ev == Published(f, false)
  {
    if n > 0 {
      FailuresHave(f, n - 1);
    }
  }

  function TriedIn(story: Story): seq<Attempt> {
    match story
    case Done(out, _) => if out.TurnedAway? then [] else out.tried
    case Cancelled => []
    case Lost(tried, _, _) => tried
  }

  /** The calls of a story and nothing else, up to the event that follows them. */
  lemma SubmittingHas(o: Order, tried: seq<Attempt>)
    ensures forall ev :: ev in Submitting(o, tried) ==>
                           ev.Fetched? || ev.Granted? || ev.Admitted? || (ev.Sent? && ev.attempt in tried)
    ensures forall a :: a in tried ==> Sent(o.id, a) in Submitting(o, tried)
  {
    SentAllHas(o.id, tried);
    var front := [Fetched(o), Granted, Admitted(o)];
    assert forall ev :: ev in front ==> ev.Fetched? || ev.Granted? || ev.Admitted?;
  }

  ghost predicate Reads(o: Order, story: Story, word: seq<Event>) {
    && (Commits(word) <==> story.Done?)
    && (Confirms(word) <==> story.Done? && story.out.Confirmed?)
    && (Failed in word <==> story.Done? && story.out.Broken?)
    && (GaveUp in word <==> story.Lost?)
    && (forall ev :: ev in word && ev.Sent? ==> ev.attempt in TriedIn(story))
    && (forall a :: a in TriedIn(story) ==> Sent(o.id, a) in word)
  }

  /** The word tells which story it was. */
  lemma WordReads(o: Order, story: Story)
    ensures Reads(o, story, Tell(o, story))
  {
    hide Submitting, GatewayTrace.Failures;
    var tried := TriedIn(story);
    SubmittingHas(o, tried);
    match story
    case Cancelled =>
    case Lost(_, f, fails) => FailuresHave(f, fails);
    case Done(out, committed) =>
      assert Committed(committed) in Tell(o, story);
      if out.Confirmed? {
        FailuresHave(out.done, out.fails);
        assert Published(out.done, true) in Tell(o, story);
      }
  }

  // ------------------------------------------------------------------ what was filled

  lemma {:induction false} AnswersHave(tried: seq<Attempt>)
    ensures forall f :: f in Answers(tried) ==> exists a :: a in tried && a.answer == Some(f)
    ensures forall a :: a in tried && a.answer.Some? ==> a.answer.value in Answers(tried)
  {
    if tried != [] {
      AnswersHave(tried[..|tried| - 1]);
      assert tried == tried[..|tried| - 1] + [tried[|tried| - 1]];
    }
  }

  lemma FilledTotal(fills: seq<Fill>, f: Fill)
    requires f in fills && f.quantity > 0.0 && forall g :: g in fills ==> g.quantity >= 0.0
    ensures Sums.Sum(Algo.Qtys(fills)) > 0.0
  {
    var qs := Algo.Qtys(fills);
    Sums.PrefixSumBounded(qs, |qs|);
    var i :| 0 <= i < |fills| && fills[i] == f;
    assert qs[i] == f.quantity;
  }

  /** Calls in order of distinct slices below `n` number at most `n`. */
  lemma {:induction false} OrderedCallsAreFew(tried: seq<Attempt>, n: nat)
    requires forall k :: 0 <= k < |tried| ==> tried[k].index < n
    requires forall j, k :: 0 <= j < k < |tried| ==> tried[j].index < tried[k].index
    ensures |tried| <= n
    decreases |tried|
  {
    if tried != [] {
      OrderedCallsAreFew(tried[..|tried| - 1], tried[|tried| - 1].index);
    }
  }

  /** If the answers are sane and one is positive, so is what the gateway makes of them. */
  lemma PositiveResult(c: Config, o: Order, tried: seq<Attempt>, a: Attempt)
    requires Usable(c) && Follows(c, o, tried)
    requires forall x :: x in tried && x.answer.Some? ==> x.answer.value.quantity >= 0.0
    requires a in tried && a.answer.Some? && a.answer.value.quantity > 0.0
    ensures ResultOf(c, tried).Some? && ResultOf(c, tried).value.quantity > 0.0
  {
    AnswersHave(tried);
    if c.algo.None? {
      OrderedCallsAreFew(tried, 1);
      assert tried == [a] && tried[..0] == [];
      assert Answers(tried) == [a.answer.value];
    } else {
      FilledTotal(Answers(tried), a.answer.value);
    }
  }

  /** The outcome of a delivery whose order was filled: confirmed, or broken off, or its fill was given up on. */
  lemma FilledStory(c: Config, o: Order, story: Story)
    requires Usable(c) && Plausible(c, o, story)
    requires forall x :: x in TriedIn(story) && x.answer.Some? ==> x.answer.value.quantity >= 0.0
    requires exists a :: a in TriedIn(story) && a.answer.Some? && a.answer.value.quantity > 0.0
    ensures story.Lost? || (story.Done? && (story.out.Confirmed? || story.out.Broken?))
    ensures story.Done? && story.out.Broken? ==> c.algo.Some? && CutShort(c, o, story.out.tried)
  {
    hide Covered, FullyCovered, CutShort, ResultOf, Plan;
    var tried := TriedIn(story);
    var a :| a in tried && a.answer.Some? && a.answer.value.quantity > 0.0;
    PositiveResult(c, o, tried, a);
  }

  /**
   The promise that a filled order is committed only once its fill is on the broker holds of a
   finished delivery exactly when its submission did not fail, and it fails only in algorithmic mode,
   cut off between slices: the slices already filled are then committed away unpublished.
   */
  ghost predicate FateKnown(c: Config, o: Order, word: seq<Event>)
    requires Usable(c)
  {
    && ((Commits(word) ==> Confirms(word)) <==> Failed !in word)
    && (Commits(word) <==> GaveUp !in word)
    && (Failed in word ==>
          && c.algo.Some? && Commits(word)
          && exists tried, ok :: CutShort(c, o, tried) && word == Tell(o, Done(Broken(tried), ok)))
  }

  lemma FilledWord(c: Config, o: Order, word: seq<Event>)
    requires Usable(c) && Complete(c, o, word) && Sane(word) && Fills(word)
    ensures FateKnown(c, o, word)
  {
    hide Plausible, Tell, CutShort;
    var story :| Plausible(c, o, story) && word == Tell(o, story);
    WordReads(o, story);
    forall x | x in TriedIn(story) && x.answer.Some?
      ensures x.answer.value.quantity >= 0.0
    {
      assert Sent(o.id, x) in word && Answering(Sent(o.id, x));
    }
    var ev :| ev in word && Answering(ev) && ev.attempt.answer.value.quantity > 0.0;
    assert ev.attempt in TriedIn(story);
    FilledStory(c, o, story);
    if Failed in word {
      assert story == Done(Broken(story.out.tried), story.committed);
    }
  }

  /** So it is of every finished delivery of every run whose order the exchange filled at all. */
  lemma CommittedFillsArePublishedIff(c: Config, b: Book, now: int, ls: seq<Label>, d: nat)
    requires Usable(c)
    requires var s := Run(c, Gateway.Boot(c, b, now), ls);
             && 1 <= d <= |s.inbox| && !(s.pc.Busy? && d == |s.inbox|)
             && Sane(Proj(s.log, d)) && Fills(Proj(s.log, d))
    ensures var s := Run(c, Gateway.Boot(c, b, now), ls);
            FateKnown(c, s.inbox[d - 1], Proj(s.log, d))
  {
    hide Run, FateKnown, Complete, Sane, Fills;
    DeliveryGrammar(c, b, now, ls, d);
    var s := Run(c, Gateway.Boot(c, b, now), ls);
    FilledWord(c, s.inbox[d - 1], Proj(s.log, d));
  }

  /**
   It does happen: a two-slice order whose first slice is filled, and whose submission is then cancelled,
   is recorded as rejected and committed, and nothing is published.
   */
  lemma FilledSliceIsCommittedAway(o: Order, f: Fill)
    requires Risk.ValidateOrderId(o.id).None? && o.quantity > 0.0 && f.quantity > 0.0
    ensures var c := Lenient(Some(Algo.Config(Algo.Twap, 2, None)));
            var s := Run(c, Empty(c), ToExchange(o) + Cut(f));
            var child := o.(id := Ids.SliceId(o.id, 0), quantity := o.quantity / 2.0);
            && s.inbox == [o] && !s.pc.Busy?
            && Proj(s.log, 1)
            == [Fetched(o), Granted, Admitted(o), Sent(o.id, Attempt(0, child, Some(f))), Failed, Committed(true)]
  {
    hide Run, Next, AtExchange, Plan, Proj, Risk.ValidateOrderId;
    var c := Lenient(Some(Algo.Config(Algo.Twap, 2, None)));
    ReachExchange(c, o);
    RunSplits(c, Empty(c), ToExchange(o), Cut(f));
    var s0 := AtExchange(c, o);
    AtExchangeIs(c, o);
    var a := Attempt(0, o.(id := Ids.SliceId(o.id, 0), quantity := o.quantity / 2.0), Some(f));
    CutRun(c, o, f, a);
    var s := Run(c, s0, Cut(f));
    ProjOfOne(s.log, [Fetched(o), Granted, Admitted(o), Sent(o.id, a), Failed, Committed(true)]);
  }

  /** The first slice filled, the second cancelled, and three steps to the commit. */
  function Cut(f: Fill): seq<Label> {
    [Work(Some(f), true, false), Work(None, true, true), Proceed, Proceed, Proceed]
  }

  lemma CutRun(c: Config, o: Order, f: Fill, a: Attempt)
    requires c == Lenient(Some(Algo.Config(Algo.Twap, 2, None))) && o.quantity > 0.0
    requires a == Attempt(0, o.(id := Ids.SliceId(o.id, 0), quantity := o.quantity / 2.0), Some(f))
    ensures var s0, s := AtExchange(c, o), Run(c, AtExchange(c, o), Cut(f));
            && s.log == Emit(Emit(Emit(s0, Sent(o.id, a)), Failed), Committed(true)).log
            && s.inbox == s0.inbox && s.pc.Top?
  {
    hide Run, Next, AtExchange, Plan;
    var s0 := AtExchange(c, o);
    AtExchangeIs(c, o);
    var s1 := Goto(Emit(s0, Sent(o.id, a)), o, Sending([a], 1));
    var s2 := Goto(Emit(s1, Failed), o, FailMem([a]));
    FirstSliceSent(c, o, f, a);
    CutCommits(c, s2, o, [a]);
    var s3 := Next(c, s2, Proceed);
    var s4 := Next(c, s3, Proceed);
    Walk(c, [s0, s1, s2, s3, s4, Next(c, s4, Proceed)], Cut(f));
  }

  lemma FirstSliceSent(c: Config, o: Order, f: Fill, a: Attempt)
    requires c == Lenient(Some(Algo.Config(Algo.Twap, 2, None))) && o.quantity > 0.0
    requires a == Attempt(0, o.(id := Ids.SliceId(o.id, 0), quantity := o.quantity / 2.0), Some(f))
    ensures var s0 := AtExchange(c, o);
            var s1 := Goto(Emit(s0, Sent(o.id, a)), o, Sending([a], 1));
            && Next(c, s0, Work(Some(f), true, false)) == s1
            && Next(c, s1, Work(None, true, true)) == Goto(Emit(s1, Failed), o, FailMem([a]))
  {
    hide Next, Plan, AtExchange, Emit;
    TwapPlan(c, o);
    var s0 := AtExchange(c, o);
    AtExchangeIs(c, o);
    assert [] + [a] == [a];
    SendingStep(c, s0, Some(f), true, false);
    SendingStep(c, Goto(Emit(s0, Sent(o.id, a)), o, Sending([a], 1)), None, true, true);
  }

  lemma TwapPlan(c: Config, o: Order)
    requires c == Lenient(Some(Algo.Config(Algo.Twap, 2, None)))
    ensures Plan(c, o).Some? && |Plan(c, o).value| == 2
    ensures Plan(c, o).value[0] == o.(id := Ids.SliceId(o.id, 0), quantity := o.quantity / 2.0)
  {}

  /** From a failed submission that memory shows as pending: rejected, then committed. */
  lemma CutCommits(c: Config, s: State, o: Order, tried: seq<Attempt>)
    requires Usable(c) && s.pc == Busy(o, FailMem(tried)) && Changes(s.mem, o.id, Rejected)
    ensures var s' := Next(c, Next(c, Next(c, s, Proceed), Proceed), Proceed);
            s'.log == Emit(s, Committed(true)).log && s'.inbox == s.inbox && s'.pc.Top?
  {
    hide Vet, Admit, Submit, StreamStep, StateOnlyQty, UpdateRow;
  }

  /** A log that is all one delivery's projects to its own events. */
  lemma {:induction false} ProjOfOne(log: seq<Entry>, word: seq<Event>)
    requires |log| == |word| && forall i :: 0 <= i < |log| ==> log[i].who == Delivery(1) && log[i].ev == word[i]
    ensures Proj(log, 1) == word
  {
    if log != [] {
      ProjOfOne(log[..|log| - 1], word[..|word| - 1]);
      assert word == word[..|word| - 1] + [word[|word| - 1]];
    }
  }

  // --------------------------------------------------- who is recorded as filled

  /** The exchange's answers name the order they were asked about. */
  ghost predicate Echoes(log: seq<Entry>) {
    forall i :: 0 <= i < |log| && Answering(log[i].ev) ==>
                  log[i].ev.attempt.answer.value.orderId == log[i].ev.attempt.child.id
  }

  lemma {:induction false} ProjFromLog(log: seq<Entry>, d: nat, ev: Event) returns (i: nat)
    requires ev in Proj(log, d)
    ensures i < |log| && log[i].ev == ev
  {
    var n := |log| - 1;
    if log[n].who == Delivery(d) && log[n].ev == ev {
      i := n;
    } else {
      i := ProjFromLog(log[..n], d, ev);
    }
  }

  /** The last answer is the answer of the last call that was answered. */
  ghost predicate LastAnswered(tried: seq<Attempt>, k: nat) {
    k < |tried| && tried[k].answer.Some? && forall j :: k < j < |tried| ==> tried[j].answer.None?
  }

  lemma {:induction false} LastAnswer(tried: seq<Attempt>) returns (k: nat)
    requires Answers(tried) != []
    ensures LastAnswered(tried, k) && Answers(tried)[|Answers(tried)| - 1] == tried[k].answer.value
  {
    var n := |tried| - 1;
    if tried[n].answer.Some? {
      k := n;
    } else {
      k := LastAnswer(tried[..n]);
    }
  }

  lemma SliceIdIsLonger(p: string, i: nat)
    ensures Ids.SliceId(p, i) != p
  {
    assert |Ids.SliceId(p, i)| > |p|;
  }

  /**
   In algorithmic mode every FILLED the intent worker writes is for the last answered slice of the
   parent at hand, never for the parent, which therefore stays active unless the stream settles it.
   */
  lemma SliceIsFilledNotParent(c: Config, b: Book, now: int, ls: seq<Label>) returns (k: nat)
    requires Usable(c) && c.algo.Some?
    requires var s := Run(c, Gateway.Boot(c, b, now), ls);
             s.pc.Busy? && s.pc.stage.FillRow? && Echoes(s.log)
    ensures var s := Run(c, Gateway.Boot(c, b, now), ls);
            var id := s.pc.stage.done.orderId;
            && LastAnswered(s.pc.stage.tried, k)
            && id == Ids.SliceId(s.pc.o.id, s.pc.stage.tried[k].index) && id != s.pc.o.id
  {
    hide Run;
    ToldAlways(c, Gateway.Boot(c, b, now), ls);
    k := FilledSlice(c, Run(c, Gateway.Boot(c, b, now), ls));
  }

  lemma FilledSlice(c: Config, s: State) returns (k: nat)
    requires Usable(c) && c.algo.Some? && Told(c, s) && s.pc.Busy? && s.pc.stage.FillRow? && Echoes(s.log)
    ensures var id := s.pc.stage.done.orderId;
            && LastAnswered(s.pc.stage.tried, k)
            && id == Ids.SliceId(s.pc.o.id, s.pc.stage.tried[k].index) && id != s.pc.o.id
  {
    hide Ids.SliceId, Submitting;
    var o, tried := s.pc.o, s.pc.stage.tried;
    k := LastAnswer(tried);
    SubmittingHas(o, tried);
    var sent := Sent(o.id, tried[k]);
    assert sent in Word(o, s.pc.stage);
    var i := ProjFromLog(s.log, |s.inbox|, sent);
    assert tried[k].child == Plan(c, o).value[tried[k].index];
    SliceIdIsLonger(o.id, tried[k].index);
  }

  // ----------------------------------------------------------- what a halt records

  /** Under a halt any order is recorded as rejected, before its ID is looked at, over whatever was known of it. */
  lemma HaltRecordsAnything(c: Config, s: State)
    requires Usable(c) && s.pc.Busy? && s.pc.stage.AtHalt? && s.halted
    ensures var id, s' := s.pc.o.id, Run(c, s, [Proceed, Proceed, Proceed]);
            && id in s'.mem.states && s'.mem.states[id] == Rejected
            && id in s'.rows && s'.rows[id].state == Rejected
  {
    hide Run, Admit, Submit, Settle, StreamStep;
    var s1 := Next(c, s, Proceed);
    var s2 := Next(c, s1, Proceed);
    Walk(c, [s, s1, s2, Next(c, s2, Proceed)], [Proceed, Proceed, Proceed]);
  }

  /**
   A halt that refuses an order already live on the exchange makes its row finished: from then on no
   restart, whatever the exchange answers, backfills or updates it.
   */
  lemma HaltOrphansLiveOrder(c: Config, s: State, view: Reconcile.View)
    requires Usable(c) && s.pc.Busy? && s.pc.stage.AtHalt? && s.halted
    ensures var id, rows := s.pc.o.id, Run(c, s, [Proceed, Proceed, Proceed]).rows;
            && id in rows && Reconcile.Backfill(rows, view, id) == 0.0
            && Reconcile.AfterPass(rows, view)[id] == rows[id]
            && id !in Reconcile.Prepared(rows, view).mem.states
  {
    hide Run;
    HaltRecordsAnything(c, s);
  }

  /** And only a halt does so: an invalid ID is saved by no other path. */
  lemma InvalidIdSavedOnlyByHalt(c: Config, b: Book, now: int, ls: seq<Label>)
    requires Usable(c)
    requires var pc := Run(c, Gateway.Boot(c, b, now), ls).pc;
             && WorkerWrite(pc).Some? && WorkerWrite(pc).value.Save?
             && Risk.ValidateOrderId(pc.o.id).Some?
    ensures Run(c, Gateway.Boot(c, b, now), ls).pc.stage == RejectRow(Halted)
  {
    hide Run, Risk.ValidateOrderId;
    ToldAlways(c, Gateway.Boot(c, b, now), ls);
  }
}
