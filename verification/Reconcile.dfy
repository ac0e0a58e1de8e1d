/**
 Boot-time reconciliation: every active row is compared with what the exchange executed, the
 difference is published as one backfilled fill, and the row takes the exchange's figure.
 */
module Reconcile {
  import opened Exchange
  import opened Sums
  import opened Tracker
  import opened Consumer
  import Ids
  import Text

  /** What the exchange answers at one boot; an ID that is absent stands for a failed query. */
  type View = map<string, StatusResult>

  predicate Reconciled(rows: Rows, view: View, id: string) {
    id in ActiveIds(rows) && id in view
  }

  function Recorded(rows: Rows, id: string): real {
    if id in rows then rows[id].filledQty else 0.0
  }

  /** The quantity a pass publishes for an order, zero when it publishes nothing. */
  function Backfill(rows: Rows, view: View, id: string): real {
    if Reconciled(rows, view, id) && view[id].executed > Recorded(rows, id)
    then view[id].executed - Recorded(rows, id)
    else 0.0
  }

  /** The table after one pass. */
  function AfterPass(rows: Rows, view: View): Rows {
    map id | id in rows ::
      if Reconciled(rows, view, id)
      then rows[id].(state := view[id].state, filledQty := view[id].executed)
      else rows[id]
  }

  /** How a quantity is printed into an execution ID. */
  type Show = real -> string

  /** The execution ID of a backfill: the order and the printed quantity. */
  function BackfillId(show: Show, id: string, q: real): string {
    Ids.Render(Ids.Reconciled(id, show(q)))
  }

  /** One pass, seen from outside: the exchange's answers, the printing, the time if an answer carries none. */
  datatype Pass = Pass(view: View, show: Show, now: int)

  /** The fill published for an order of which `delta` was missed, as the exchange now reports it. */
  function Notice(p: Pass, o: Order, res: StatusResult, delta: real): Fill {
    Fill(o.id, BackfillId(p.show, o.id, delta), o.instrument, o.side, Some(res.state), delta, res.price, 0.0,
         if res.time.Some? then res.time.value else p.now)
  }

  /** What a pass publishes for an order. */
  function Notices(rows: Rows, p: Pass, id: string): seq<Fill> {
    var q := Backfill(rows, p.view, id);
    if q > 0.0 then [Notice(p, rows[id].order, p.view[id], q)] else []
  }

  /** The fills published for one order, in order. */
  function FillsFor(fills: seq<Fill>, id: string): (mine: seq<Fill>)
    ensures forall f :: f in mine <==> f in fills && f.orderId == id
  {
    if fills == [] then []
    else
      var n := |fills| - 1;
      assert forall f :: f in fills <==> f in fills[..n] || f == fills[n];
      FillsFor(fills[..n], id) + if fills[n].orderId == id then [fills[n]] else []
  }

  function ForOrder(q: real): seq<real> {
    if q > 0.0 then [q] else []
  }

  /** The rows of `done` already synchronised, the others untouched. */
  ghost predicate RowsSynced(before: Rows, view: View, done: set<string>, now: Rows) {
    && now.Keys == before.Keys
    && forall id :: id in before ==> now[id] == if id in done then AfterPass(before, view)[id] else before[id]
  }

  /** Tracker states of the orders in `done` that the exchange knows are the exchange's, the others untouched. */
  ghost predicate StatesSynced(before: map<string, OrderState>, view: View, done: set<string>,
                               now: map<string, OrderState>) {
    && now.Keys == before.Keys + (done * view.Keys)
    && forall id :: id in now ==> now[id] == if id in done && id in view then view[id].state else before[id]
  }

  /** Exactly the backfills of the orders in `ids` have been published, each once. */
  ghost predicate Published(rows: Rows, p: Pass, ids: set<string>, fills: seq<Fill>) {
    forall id :: FillsFor(fills, id) == if id in ids then Notices(rows, p, id) else []
  }

  /** The exchange executed more of an active order than is recorded. */
  predicate Missed(rows: Rows, view: View, id: string) {
    && id in rows && rows[id].state in {Pending, Submitted, PartiallyFilled}
    && id in view && view[id].executed > rows[id].filledQty
  }

  /** What is to be published about an order: one fill for exactly what was missed, or nothing. */
  ghost predicate MadeUp(rows: Rows, p: Pass, id: string, mine: seq<Fill>) {
    if Missed(rows, p.view, id) then
      && |mine| == 1
      && var f, row, res := mine[0], rows[id], p.view[id];
         && f.orderId == id && f.instrument == row.order.instrument && f.side == row.order.side
         && f.quantity == res.executed - row.filledQty && f.price == res.price && f.cost == 0.0
         && f.status == Some(res.state) && f.at == (if res.time.Some? then res.time.value else p.now)
         && f.executionId == id + "-reconcile-" + p.show(res.executed - row.filledQty)
    else mine == []
  }

  lemma PublishedIsMadeUp(rows: Rows, p: Pass, ids: set<string>, fills: seq<Fill>, id: string)
    requires WellKeyed(rows) && Published(rows, p, ids, fills) && id in ids
    ensures MadeUp(rows, p, id, FillsFor(fills, id))
  {
    hide FillsFor;
    if Missed(rows, p.view, id) {
      Ids.ExecutionIdsAre(id, 0, p.show(p.view[id].executed - rows[id].filledQty));
    }
  }

  /** Nothing is missed of an order outside the active ones. */
  lemma OnlyActiveMissed(rows: Rows, p: Pass, ids: set<string>, fills: seq<Fill>, id: string)
    requires Published(rows, p, ids, fills) && id !in ids
    ensures FillsFor(fills, id) == [] && (ids == ActiveIds(rows) ==> MadeUp(rows, p, id, FillsFor(fills, id)))
  {
    hide FillsFor;
  }

  lemma PassMakesUp(rows: Rows, p: Pass, fills: seq<Fill>, broker: set<string>, confirmed: seq<Fill>)
    requires WellKeyed(rows) && Published(rows, p, ActiveIds(rows), fills)
    requires Published(rows, p, ActiveIds(rows) * broker, confirmed)
    ensures forall id :: MadeUp(rows, p, id, FillsFor(fills, id))
    ensures forall id :: if id in broker then MadeUp(rows, p, id, FillsFor(confirmed, id))
                         else FillsFor(confirmed, id) == []
  {
    hide Published, MadeUp, FillsFor;
    forall id
      ensures MadeUp(rows, p, id, FillsFor(fills, id))
    {
      if id in ActiveIds(rows) {
        PublishedIsMadeUp(rows, p, ActiveIds(rows), fills, id);
      } else {
        OnlyActiveMissed(rows, p, ActiveIds(rows), fills, id);
      }
    }
    forall id
      ensures if id in broker then MadeUp(rows, p, id, FillsFor(confirmed, id)) else FillsFor(confirmed, id) == []
    {
      if id in ActiveIds(rows) * broker {
        PublishedIsMadeUp(rows, p, ActiveIds(rows) * broker, confirmed, id);
      } else {
        OnlyActiveMissed(rows, p, ActiveIds(rows) * broker, confirmed, id);
        if id in broker {
          InactiveMissesNothing(rows, p, id);
        }
      }
    }
  }

  lemma InactiveMissesNothing(rows: Rows, p: Pass, id: string)
    requires id !in ActiveIds(rows)
    ensures MadeUp(rows, p, id, [])
  {}

  /** An active row the exchange answered for takes its state and quantity, every other stays. */
  ghost predicate Synchronised(before: Rows, view: View, after: Rows) {
    && after.Keys == before.Keys
    && forall id :: id in before ==>
         after[id] == if before[id].state in {Pending, Submitted, PartiallyFilled} && id in view
                      then before[id].(state := view[id].state, filledQty := view[id].executed)
                      else before[id]
  }

  lemma PassSynchronises(rows: Rows, view: View)
    ensures Synchronised(rows, view, AfterPass(rows, view))
  {}

  lemma FillsForSnoc(fills: seq<Fill>, f: Fill, id: string)
    ensures FillsFor(fills + [f], id) == FillsFor(fills, id) + if f.orderId == id then [f] else []
  {
    assert (fills + [f])[..|fills|] == fills;
  }

  lemma PublishedOneMore(rows: Rows, p: Pass, ids: set<string>, fills: seq<Fill>, id: string)
    requires WellKeyed(rows) && Published(rows, p, ids, fills) && id !in ids
    ensures Published(rows, p, ids + {id}, fills + Notices(rows, p, id))
  {
    hide FillsFor;
    var more := Notices(rows, p, id);
    if more != [] {
      forall x
        ensures FillsFor(fills + more, x) == FillsFor(fills, x) + if x == id then more else []
      {
        FillsForSnoc(fills, more[0], x);
      }
    } else {
      assert fills + more == fills;
    }
  }

  lemma RowsSyncedOneMore(before: Rows, view: View, done: set<string>, now: Rows, id: string)
    requires RowsSynced(before, view, done, now) && id in ActiveIds(before) && id !in done
    ensures id in view ==>
              RowsSynced(before, view, done + {id}, UpdateRow(now, id, view[id].state, view[id].executed))
    ensures id !in view ==> RowsSynced(before, view, done + {id}, now)
  {}

  lemma StatesSyncedOneMore(before: map<string, OrderState>, view: View, done: set<string>,
                            now: map<string, OrderState>, id: string)
    requires StatesSynced(before, view, done, now)
    ensures id in view ==> StatesSynced(before, view, done + {id}, now[id := view[id].state])
    ensures id !in view ==> StatesSynced(before, view, done + {id}, now)
  {}

  lemma RowsSyncedAll(before: Rows, view: View, now: Rows)
    requires RowsSynced(before, view, ActiveIds(before), now)
    ensures now == AfterPass(before, view)
  {}

  lemma ConfirmedOneMore(rows: Rows, p: Pass, done: set<string>, broker: set<string>, fills: seq<Fill>, id: string)
    requires WellKeyed(rows) && Published(rows, p, done * broker, fills) && id !in done
    ensures Published(rows, p, (done + {id}) * broker, fills + if id in broker then Notices(rows, p, id) else [])
  {
    if id in broker {
      assert (done + {id}) * broker == done * broker + {id};
      PublishedOneMore(rows, p, done * broker, fills, id);
    } else {
      assert (done + {id}) * broker == done * broker;
      assert fills + [] == fills;
    }
  }

  lemma {:induction false} IdsOfPrefix(orders: seq<Order>, i: nat, id: string)
    requires i <= |orders| && forall k :: 0 <= k < i ==> orders[k].id != id
    ensures id !in IdsOf(orders[..i])
  {
    if i > 0 {
      assert orders[..i][..i - 1] == orders[..i - 1];
      IdsOfPrefix(orders, i - 1, id);
    }
  }

  lemma NextId(orders: seq<Order>, i: nat)
    requires i < |orders| && forall j, k :: 0 <= j < k < |orders| ==> orders[j].id != orders[k].id
    ensures orders[i].id !in IdsOf(orders[..i])
    ensures IdsOf(orders[..i + 1]) == IdsOf(orders[..i]) + {orders[i].id}
  {
    IdsOfPrefix(orders, i, orders[i].id);
    assert orders[..i + 1][..i] == orders[..i];
  }

  /** How far a pass has come: the tables, the tracker and both publish logs after the orders in `done`. */
  datatype Progress = Progress(rows: Rows, states: map<string, OrderState>,
                               attempted: seq<Fill>, confirmed: seq<Fill>)

  ghost predicate DoneSoFar(start: Progress, p: Pass, broker: set<string>, done: set<string>, at: Progress) {
    && RowsSynced(start.rows, p.view, done, at.rows)
    && StatesSynced(start.states, p.view, done, at.states)
    && Published(start.rows, p, done, at.attempted)
    && Published(start.rows, p, done * broker, at.confirmed)
  }

  /** What one turn of the loop does. */
  function Turn(at: Progress, p: Pass, broker: set<string>, o: Order, prev: real): Progress {
    var id := o.id;
    if id !in p.view then at
    else
      var res := p.view[id];
      var delta := res.executed - prev;
      var sent := if delta > 0.0 then [Notice(p, o, res, delta)] else [];
      Progress(UpdateRow(at.rows, id, res.state, res.executed), at.states[id := res.state],
               at.attempted + sent, at.confirmed + if id in broker then sent else [])
  }

  lemma TurnAdvances(start: Progress, p: Pass, broker: set<string>, done: set<string>, at: Progress, o: Order)
    requires WellKeyed(start.rows) && DoneSoFar(start, p, broker, done, at)
    requires o.id in ActiveIds(start.rows) && o.id !in done && start.rows[o.id].order == o
    ensures DoneSoFar(start, p, broker, done + {o.id}, Turn(at, p, broker, o, start.rows[o.id].filledQty))
  {
    hide RowsSynced, StatesSynced, Published, Notice;
    RowsSyncedOneMore(start.rows, p.view, done, at.rows, o.id);
    StatesSyncedOneMore(start.states, p.view, done, at.states, o.id);
    PublishedOneMore(start.rows, p, done, at.attempted, o.id);
    ConfirmedOneMore(start.rows, p, done, broker, at.confirmed, o.id);
    assert at.attempted + [] == at.attempted && at.confirmed + [] == at.confirmed;
  }

  lemma PassStarts(start: Progress, p: Pass, broker: set<string>)
    requires start.attempted == start.confirmed == []
    ensures DoneSoFar(start, p, broker, IdsOf([]), start)
  {
    assert IdsOf([]) * broker == {};
  }

  lemma PassEnds(start: Progress, p: Pass, broker: set<string>, at: Progress)
    requires DoneSoFar(start, p, broker, ActiveIds(start.rows), at)
    ensures at.rows == AfterPass(start.rows, p.view)
    ensures StatesSynced(start.states, p.view, ActiveIds(start.rows), at.states)
    ensures Published(start.rows, p, ActiveIds(start.rows), at.attempted)
    ensures Published(start.rows, p, ActiveIds(start.rows) * broker, at.confirmed)
  {
    hide StatesSynced, Published;
    RowsSyncedAll(start.rows, p.view, at.rows);
  }

  /**
   The loop of the boot pass.  `broker` holds the orders whose publish the broker confirms; the
   row is synchronised whether or not it does.
   */
  method ReconcileAtBoot(store: OrderStore, tracker: OrderTracker, p: Pass, broker: set<string>)
    returns (attempted: seq<Fill>, confirmed: seq<Fill>)
    requires tracker.store == store && WellKeyed(store.rows)
    modifies store, tracker
    ensures tracker.store == store && tracker.orders == old(tracker.orders)
    ensures store.rows == AfterPass(old(store.rows), p.view)
    ensures StatesSynced(old(tracker.states), p.view, ActiveIds(old(store.rows)), tracker.states)
    ensures Synchronised(old(store.rows), p.view, store.rows)
    ensures forall id :: MadeUp(old(store.rows), p, id, FillsFor(attempted, id))
    ensures forall id :: if id in broker then MadeUp(old(store.rows), p, id, FillsFor(confirmed, id))
                         else FillsFor(confirmed, id) == []
  {
    hide DoneSoFar, AfterPass, StatesSynced, Published, Notice, MadeUp, FillsFor, Synchronised;
    ghost var start := Progress(store.rows, tracker.states, [], []);
    PassStarts(start, p, broker);
    var active, _, filled := store.GetActiveOrders();
    attempted, confirmed := [], [];
    assert active[..0] == [];
    for i := 0 to |active|
      invariant tracker.store == store && tracker.orders == old(tracker.orders)
      invariant DoneSoFar(start, p, broker, IdsOf(active[..i]),
                          Progress(store.rows, tracker.states, attempted, confirmed))
    {
      hide IdsOf;
      var o := active[i];
      NextId(active, i);
      ghost var at := Progress(store.rows, tracker.states, attempted, confirmed);
      TurnAdvances(start, p, broker, IdsOf(active[..i]), at, o);
      if o.id in p.view {
        var res := p.view[o.id];
        var delta := res.executed - filled[o.id];
        var sent := if delta > 0.0 then [Notice(p, o, res, delta)] else [];
        attempted := attempted + sent;
        confirmed := confirmed + if o.id in broker then sent else [];
        var _ := tracker.UpdateOrderStateAndQty(o.id, res.state, res.executed);
      }
      assert Progress(store.rows, tracker.states, attempted, confirmed) == Turn(at, p, broker, o, filled[o.id]);
    }
    assert active[..|active|] == active;
    PassEnds(start, p, broker, Progress(store.rows, tracker.states, attempted, confirmed));
    PassMakesUp(start.rows, p, attempted, broker, confirmed);
    PassSynchronises(start.rows, p.view);
  }

  /** Tracker and table as loading and reconciliation leave them to the gateway. */
  function Prepared(rows: Rows, view: View): Book {
    Book(Memory(map id | id in ActiveIds(rows) :: rows[id].order,
                map id | id in ActiveIds(rows) :: if id in view then view[id].state else rows[id].state),
         AfterPass(rows, view))
  }

  /** A prepared tracker mirrors its table; it still knows the orders that reconciliation finished. */
  lemma PreparedMirrors(rows: Rows, view: View)
    requires WellKeyed(rows)
    ensures Mirrors(Prepared(rows, view)) && Agree(Prepared(rows, view))
    ensures Prepared(rows, view).mem.states.Keys == ActiveIds(rows)
  {}

  lemma SyncedIsPrepared(rows: Rows, view: View, m: Memory)
    requires m.orders == Preload(EMPTY, rows).orders
    requires StatesSynced(Preload(EMPTY, rows).states, view, ActiveIds(rows), m.states)
    ensures m == Prepared(rows, view).mem
  {
    var p := Prepared(rows, view).mem;
    assert EMPTY.orders + p.orders == p.orders;
    assert m.states.Keys == p.states.Keys;
  }

  /** What a process does before its gateway starts: a new tracker, loaded from the table, then reconciled. */
  method PrepareTracker(store: OrderStore, p: Pass, broker: set<string>)
    returns (tracker: OrderTracker, attempted: seq<Fill>, confirmed: seq<Fill>)
    requires WellKeyed(store.rows)
    modifies store
    ensures fresh(tracker) && tracker.store == store
    ensures Book(tracker.Contents(), store.rows) == Prepared(old(store.rows), p.view)
    ensures Mirrors(Book(tracker.Contents(), store.rows))
    ensures Synchronised(old(store.rows), p.view, store.rows)
    ensures forall id :: id in tracker.states <==>
                           id in old(store.rows) && old(store.rows[id]).state in {Pending, Submitted, PartiallyFilled}
    ensures forall id :: MadeUp(old(store.rows), p, id, FillsFor(attempted, id))
    ensures forall id :: if id in broker then MadeUp(old(store.rows), p, id, FillsFor(confirmed, id))
                         else FillsFor(confirmed, id) == []
  {
    hide StatesSynced, AfterPass, Mirrors, MadeUp, FillsFor, Synchronised;
    tracker := new OrderTracker();
    tracker.WithStore(store);
    attempted, confirmed := ReconcileAtBoot(store, tracker, p, broker);
    SyncedIsPrepared(old(store.rows), p.view, tracker.Contents());
    PreparedMirrors(old(store.rows), p.view);
  }

  // -------------------------------------------------------------- many restarts

  /**
   The table's life: boots, and in between any activity that leaves recorded quantities alone.
   `broker` holds the orders whose backfill publish the broker confirmed at that boot.
   */
  datatype Epoch =
    | BootPass(view: View, broker: set<string>)
    | Live(rows: Rows)

  function After(rows: Rows, e: Epoch): Rows {
    match e
    case BootPass(view, _) => AfterPass(rows, view)
    case Live(later) => later
  }

  function Final(rows: Rows, es: seq<Epoch>): Rows
    decreases |es|
  {
    if es == [] then rows else Final(After(rows, es[0]), es[1..])
  }

  /** Only reconciliation writes recorded quantities. */
  ghost predicate Lawful(rows: Rows, es: seq<Epoch>)
    decreases |es|
  {
    es != [] ==>
      && (es[0].Live? ==> forall id :: Recorded(es[0].rows, id) == Recorded(rows, id))
      && Lawful(After(rows, es[0]), es[1..])
  }

  /** All quantities backfilled for one order over the run, in order. */
  function Deltas(rows: Rows, es: seq<Epoch>, id: string): seq<real>
    decreases |es|
  {
    if es == [] then []
    else
      (if es[0].BootPass? then ForOrder(Backfill(rows, es[0].view, id)) else [])
      + Deltas(After(rows, es[0]), es[1..], id)
  }

  /** What the exchange took back at one epoch: recorded but no longer executed. */
  function Drop(rows: Rows, e: Epoch, id: string): (d: real)
    ensures d >= 0.0
  {
    if e.BootPass? && Reconciled(rows, e.view, id) && e.view[id].executed < Recorded(rows, id)
    then Recorded(rows, id) - e.view[id].executed
    else 0.0
  }

  function Drops(rows: Rows, es: seq<Epoch>, id: string): (d: real)
    ensures d >= 0.0
    decreases |es|
  {
    if es == [] then 0.0 else Drop(rows, es[0], id) + Drops(After(rows, es[0]), es[1..], id)
  }

  lemma SumForOrder(q: real)
    requires q >= 0.0
    ensures Sum(ForOrder(q)) == q
  {
    SumOne(q);
  }

  lemma OnePassBalance(rows: Rows, e: Epoch, id: string)
    requires e.BootPass?
    ensures Recorded(After(rows, e), id) == Recorded(rows, id) + Backfill(rows, e.view, id) - Drop(rows, e, id)
  {}

  /** Over any number of restarts, what was backfilled is what the record grew by, plus what it lost. */
  lemma {:induction false} Balance(rows: Rows, es: seq<Epoch>, id: string)
    requires Lawful(rows, es)
    ensures Sum(Deltas(rows, es, id)) == Recorded(Final(rows, es), id) - Recorded(rows, id) + Drops(rows, es, id)
    decreases |es|
  {
    if es != [] {
      var rest := Deltas(After(rows, es[0]), es[1..], id);
      Balance(After(rows, es[0]), es[1..], id);
      if es[0].BootPass? {
        var q := Backfill(rows, es[0].view, id);
        SumConcat(ForOrder(q), rest);
        SumForOrder(q);
        OnePassBalance(rows, es[0], id);
      } else {
        assert [] + rest == rest;
      }
    }
  }

  /** The exchange never reports less than `floor`, nor less than it reported before. */
  predicate NeverDecreases(es: seq<Epoch>, id: string, floor: real)
    decreases |es|
  {
    es != [] ==>
      if es[0].BootPass? && id in es[0].view
      then floor <= es[0].view[id].executed && NeverDecreases(es[1..], id, es[0].view[id].executed)
      else NeverDecreases(es[1..], id, floor)
  }

  lemma {:induction false} NoDropsWhenNeverDecreasing(rows: Rows, es: seq<Epoch>, id: string, floor: real)
    requires Lawful(rows, es) && NeverDecreases(es, id, floor) && Recorded(rows, id) <= floor
    ensures Drops(rows, es, id) == 0.0
    decreases |es|
  {
    if es != [] {
      var e := es[0];
      var next := if e.BootPass? && id in e.view then e.view[id].executed else floor;
      if e.BootPass? {
        OnePassBalance(rows, e, id);
      }
      NoDropsWhenNeverDecreasing(After(rows, e), es[1..], id, next);
    }
  }

  /** The executed quantity at the last boot that reconciled the order, or what was recorded at first. */
  function LastReconciled(rows: Rows, es: seq<Epoch>, id: string, first: real): real
    decreases |es|
  {
    if es == [] then first
    else
      LastReconciled(After(rows, es[0]), es[1..], id,
                     if es[0].BootPass? && Reconciled(rows, es[0].view, id) then es[0].view[id].executed else first)
  }

  lemma {:induction false} RecordIsLastReconciled(rows: Rows, es: seq<Epoch>, id: string)
    requires Lawful(rows, es)
    ensures Recorded(Final(rows, es), id) == LastReconciled(rows, es, id, Recorded(rows, id))
    decreases |es|
  {
    if es != [] {
      RecordIsLastReconciled(After(rows, es[0]), es[1..], id);
    }
  }

  /**
   Quantity is conserved over unbounded restarts: with an exchange that never takes quantity back,
   the backfills of an order add up to its last reconciled executed quantity less the initial record.
   */
  lemma ReconciliationConserves(rows: Rows, es: seq<Epoch>, id: string)
    requires Lawful(rows, es) && NeverDecreases(es, id, Recorded(rows, id))
    ensures Sum(Deltas(rows, es, id)) == LastReconciled(rows, es, id, Recorded(rows, id)) - Recorded(rows, id)
  {
    Balance(rows, es, id);
    NoDropsWhenNeverDecreasing(rows, es, id, Recorded(rows, id));
    RecordIsLastReconciled(rows, es, id);
  }

  /** A second pass against an unchanged exchange changes and publishes nothing. */
  lemma SecondPassIsSilent(rows: Rows, view: View, id: string)
    ensures Backfill(AfterPass(rows, view), view, id) == 0.0
    ensures AfterPass(AfterPass(rows, view), view) == AfterPass(rows, view)
  {
    var once := AfterPass(rows, view);
    forall x | x in once && Reconciled(once, view, x)
      ensures Reconciled(rows, view, x)
    {
    }
  }

  // ------------------------------------------------- the same, over the fills themselves

  /** A pass with the fills it attempted, or what went on in between. */
  datatype Episode = Passed(p: Pass, fills: seq<Fill>) | Ran(rows: Rows)

  function EpochsOf(es: seq<Episode>): (r: seq<Epoch>)
    ensures |r| == |es|
  {
    seq(|es|, i requires 0 <= i < |es| => if es[i].Passed? then BootPass(es[i].p.view, {}) else Live(es[i].rows))
  }

  /** Each pass published what it owed, as `ReconcileAtBoot` does, and nothing else wrote quantities. */
  ghost predicate Chronicle(rows: Rows, es: seq<Episode>)
    decreases |es|
  {
    es != [] ==>
      && (match es[0]
          case Passed(p, fills) => forall id :: MadeUp(rows, p, id, FillsFor(fills, id))
          case Ran(later) => forall id :: Recorded(later, id) == Recorded(rows, id))
      && Chronicle(After(rows, EpochsOf(es)[0]), es[1..])
  }

  function QuantitiesOf(fills: seq<Fill>): (qs: seq<real>)
    ensures |qs| == |fills|
  {
    seq(|fills|, i requires 0 <= i < |fills| => fills[i].quantity)
  }

  function PublishedQty(es: seq<Episode>, id: string): real {
    if es == [] then 0.0
    else (if es[0].Passed? then Sum(QuantitiesOf(FillsFor(es[0].fills, id))) else 0.0) + PublishedQty(es[1..], id)
  }

  lemma MadeUpQty(rows: Rows, p: Pass, id: string, mine: seq<Fill>)
    requires MadeUp(rows, p, id, mine)
    ensures Sum(QuantitiesOf(mine)) == Backfill(rows, p.view, id)
  {
    if mine != [] {
      assert QuantitiesOf(mine) == [mine[0].quantity];
      SumOne(mine[0].quantity);
    }
  }

  lemma EpochsTail(es: seq<Episode>)
    requires es != []
    ensures EpochsOf(es)[1..] == EpochsOf(es[1..])
  {}

  lemma {:induction false} ChronicleIsLawful(rows: Rows, es: seq<Episode>, id: string)
    requires Chronicle(rows, es)
    ensures Lawful(rows, EpochsOf(es)) && PublishedQty(es, id) == Sum(Deltas(rows, EpochsOf(es), id))
    decreases |es|
  {
    if es != [] {
      hide MadeUp, FillsFor, Sum;
      var e, next := EpochsOf(es)[0], After(rows, EpochsOf(es)[0]);
      EpochsTail(es);
      ChronicleIsLawful(next, es[1..], id);
      var rest := Deltas(next, EpochsOf(es[1..]), id);
      if es[0].Passed? {
        MadeUpQty(rows, es[0].p, id, FillsFor(es[0].fills, id));
        var q := Backfill(rows, e.view, id);
        SumForOrder(q);
        SumConcat(ForOrder(q), rest);
      } else {
        assert [] + rest == rest;
      }
    }
  }

  /**
   Over unbounded restarts the fills actually published for an order add up to the growth of its record,
   which is its last reconciled executed quantity, if the exchange never takes quantity back.
   */
  lemma PublishedFillsConserve(rows: Rows, es: seq<Episode>, id: string)
    requires Chronicle(rows, es) && NeverDecreases(EpochsOf(es), id, Recorded(rows, id))
    ensures PublishedQty(es, id) == Recorded(Final(rows, EpochsOf(es)), id) - Recorded(rows, id)
    ensures PublishedQty(es, id) == LastReconciled(rows, EpochsOf(es), id, Recorded(rows, id)) - Recorded(rows, id)
  {
    ChronicleIsLawful(rows, es, id);
    ReconciliationConserves(rows, EpochsOf(es), id);
    RecordIsLastReconciled(rows, EpochsOf(es), id);
  }

  // ------------------------------------------------------ what reaches downstream

  /** Quantities whose publish the broker confirmed. */
  function Delivered(rows: Rows, es: seq<Epoch>, id: string): seq<real>
    decreases |es|
  {
    if es == [] then []
    else
      (if es[0].BootPass? && id in es[0].broker then ForOrder(Backfill(rows, es[0].view, id)) else [])
      + Delivered(After(rows, es[0]), es[1..], id)
  }

  /** Some boot had something to publish for the order and the broker refused it. */
  predicate SomePublishFailed(rows: Rows, es: seq<Epoch>, id: string)
    decreases |es|
  {
    es != [] &&
    ((es[0].BootPass? && id !in es[0].broker && Backfill(rows, es[0].view, id) > 0.0)
     || SomePublishFailed(After(rows, es[0]), es[1..], id))
  }

  /** A refused backfill is never made up for later: everything arrives exactly when no publish failed. */
  lemma {:induction false} DeliveredInFullIff(rows: Rows, es: seq<Epoch>, id: string)
    ensures Sum(Delivered(rows, es, id)) <= Sum(Deltas(rows, es, id))
    ensures Sum(Delivered(rows, es, id)) == Sum(Deltas(rows, es, id)) <==> !SomePublishFailed(rows, es, id)
    ensures !SomePublishFailed(rows, es, id) ==> Delivered(rows, es, id) == Deltas(rows, es, id)
    decreases |es|
  {
    if es != [] {
      var e, next, tail := es[0], After(rows, es[0]), es[1..];
      DeliveredInFullIff(next, tail, id);
      if e.BootPass? {
        var q := Backfill(rows, e.view, id);
        SumForOrder(q);
        SumConcat(ForOrder(q), Deltas(next, tail, id));
        SumConcat(ForOrder(q), Delivered(next, tail, id));
      }
      assert [] + Delivered(next, tail, id) == Delivered(next, tail, id);
      assert [] + Deltas(next, tail, id) == Deltas(next, tail, id);
    }
  }

  /** The messages that carry the given backfills of one order. */
  function Backfills(show: Show, id: string, qs: seq<real>): seq<Message> {
    seq(|qs|, i requires 0 <= i < |qs| => Message(BackfillId(show, id, qs[i]), qs[i]))
  }

  /** No two amounts print alike. */
  predicate PrintDistinct(show: Show, qs: seq<real>) {
    forall i, j :: 0 <= i < j < |qs| ==> show(qs[i]) != show(qs[j])
  }

  lemma SameBackfillIdIff(show: Show, id: string, p: real, q: real)
    ensures BackfillId(show, id, p) == BackfillId(show, id, q) <==> show(p) == show(q)
  {
    var front := Text.Dashed(id, "reconcile") + "-";
    assert BackfillId(show, id, p)[|front|..] == show(p);
    assert BackfillId(show, id, q)[|front|..] == show(q);
  }

  /** A consumer that drops repeated IDs keeps all backfills of an order exactly when no two amounts print alike. */
  lemma DedupKeepsAllIffDistinct(show: Show, id: string, qs: seq<real>)
    requires forall i :: 0 <= i < |qs| ==> qs[i] > 0.0
    ensures Heard(Backfills(show, id, qs)) <= Sum(qs)
    ensures Heard(Backfills(show, id, qs)) == Sum(qs) <==> PrintDistinct(show, qs)
  {
    hide BackfillId;
    var ms := Backfills(show, id, qs);
    HeardPlusDropped(ms);
    assert Amounts(ms) == qs;
    DroppedIffRepeated(ms);
    forall i, j | 0 <= i < j < |qs|
      ensures ms[i].executionId != ms[j].executionId <==> show(qs[i]) != show(qs[j])
    {
      SameBackfillIdIff(show, id, qs[i], qs[j]);
    }
  }

  lemma {:induction false} DeliveredPositive(rows: Rows, es: seq<Epoch>, id: string)
    ensures forall i :: 0 <= i < |Delivered(rows, es, id)| ==> Delivered(rows, es, id)[i] > 0.0
    decreases |es|
  {
    if es != [] {
      DeliveredPositive(After(rows, es[0]), es[1..], id);
    }
  }

  /**
   End to end: with an exchange that never takes quantity back, a deduplicating consumer ends with
   exactly the order's reconciled quantity if and only if no publish failed and no two boots backfilled
   amounts that print alike.
   */
  lemma ConsumerIsExactIff(show: Show, rows: Rows, es: seq<Epoch>, id: string)
    requires Lawful(rows, es) && NeverDecreases(es, id, Recorded(rows, id))
    ensures Heard(Backfills(show, id, Delivered(rows, es, id)))
         == LastReconciled(rows, es, id, Recorded(rows, id)) - Recorded(rows, id)
       <==> !SomePublishFailed(rows, es, id) && PrintDistinct(show, Deltas(rows, es, id))
  {
    DeliveredInFullIff(rows, es, id);
    ReconciliationConserves(rows, es, id);
    DeliveredPositive(rows, es, id);
    DedupKeepsAllIffDistinct(show, id, Delivered(rows, es, id));
  }

  // -------------------------------------------------------------------- witnesses

  /** A submitted order of which a boot finds some quantity executed. */
  function Found(o: Order, executed: real, state: OrderState, broker: set<string>): Epoch {
    BootPass(map[o.id := StatusResult(state, executed, 1.0, None)], broker)
  }

  function Resting(o: Order): Rows {
    map[o.id := Row(o, Submitted, 0.0, 0)]
  }

  lemma TwoBoots(o: Order, first: set<string>)
    ensures var half, full := Found(o, 0.5, PartiallyFilled, first), Found(o, 1.0, Filled, {o.id});
            && Deltas(Resting(o), [half, full], o.id) == [0.5, 0.5]
            && Delivered(Resting(o), [half, full], o.id) == if o.id in first then [0.5, 0.5] else [0.5]
  {
    var rows, half, full := Resting(o), Found(o, 0.5, PartiallyFilled, first), Found(o, 1.0, Filled, {o.id});
    var mid := After(rows, half);
    assert mid[o.id] == Row(o, PartiallyFilled, 0.5, 0);
    assert Backfill(rows, half.view, o.id) == 0.5 && Backfill(mid, full.view, o.id) == 0.5;
    assert [half, full][1..] == [full] && [full][1..] == [];
    assert Deltas(mid, [full], o.id) == [0.5] + Deltas(After(mid, full), [], o.id) == [0.5];
    assert Delivered(mid, [full], o.id) == [0.5] + Delivered(After(mid, full), [], o.id) == [0.5];
  }

  /** Two boots that each find the same missing amount: the consumer keeps only the first. */
  lemma EqualDeltasAreLost(show: Show, o: Order)
    ensures var es := [Found(o, 0.5, PartiallyFilled, {o.id}), Found(o, 1.0, Filled, {o.id})];
            Heard(Backfills(show, o.id, Delivered(Resting(o), es, o.id))) == 0.5
  {
    TwoBoots(o, {o.id});
    var ms := Backfills(show, o.id, [0.5, 0.5]);
    assert ms[..1][..0] == [] && ms[0] == ms[1];
    assert Heard(ms[..1]) == 0.5;
  }

  /** A backfill the broker refuses: the next boot sends only what was missed since. */
  lemma RefusedBackfillIsLost(show: Show, o: Order)
    ensures var es := [Found(o, 0.5, PartiallyFilled, {}), Found(o, 1.0, Filled, {o.id})];
            && Heard(Backfills(show, o.id, Delivered(Resting(o), es, o.id))) == 0.5
            && Recorded(Final(Resting(o), es), o.id) == 1.0
  {
    TwoBoots(o, {});
    var half, full := Found(o, 0.5, PartiallyFilled, {}), Found(o, 1.0, Filled, {o.id});
    var ms := Backfills(show, o.id, [0.5]);
    assert ms[..0] == [];
    var mid := After(Resting(o), half);
    assert mid[o.id] == Row(o, PartiallyFilled, 0.5, 0);
    assert [half, full][1..] == [full] && [full][1..] == [];
    assert Final(mid, [full]) == Final(After(mid, full), []) == After(mid, full);
  }
}
