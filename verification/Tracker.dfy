/**
 The order table and the in-memory tracker that caches it.  The pure functions say what each
 operation does to memory and to the table; the classes are proved against them.
 */
module Tracker {
  import opened Exchange

  datatype Row = Row(order: Order, state: OrderState, filledQty: real, createdAt: int)

  type Rows = map<string, Row>

  /** The tracker's two maps. */
  datatype Memory = Memory(orders: map<string, Order>, states: map<string, OrderState>)

  // ------------------------------------------------------------------ the table

  /** INSERT ... ON CONFLICT: an existing row keeps everything but its state. */
  function SaveRow(rows: Rows, o: Order, st: OrderState, now: int): Rows {
    rows[o.id := if o.id in rows then rows[o.id].(state := st) else Row(o, st, 0.0, now)]
  }

  /** UPDATE ... WHERE order_id = ?: no row, no effect. */
  function UpdateRow(rows: Rows, id: string, st: OrderState, qty: real): Rows {
    if id in rows then rows[id := rows[id].(state := st, filledQty := qty)] else rows
  }

  function ActiveIds(rows: Rows): set<string> {
    set id | id in rows && !Terminal(rows[id].state)
  }

  /** Rows created at or after `start`, of one side or (None) of any. */
  function CreatedSince(rows: Rows, start: int, side: Option<Side>): set<string> {
    set id | id in rows && rows[id].createdAt >= start && (side.Some? ==> rows[id].order.side == side.value)
  }

  const DAY: int := 86_400_000_000_000

  function Day(t: int): int {
    t / DAY
  }

  predicate WellKeyed(rows: Rows) {
    forall id :: id in rows ==> rows[id].order.id == id
  }

  function IdsOf(orders: seq<Order>): set<string> {
    if orders == [] then {} else IdsOf(orders[..|orders| - 1]) + {orders[|orders| - 1].id}
  }

  class OrderStore {
    var rows: Rows

    constructor ()
      ensures rows == map[]
    {
      rows := map[];
    }

    method SaveOrder(o: Order, st: OrderState, now: int)
      modifies this
      ensures rows == SaveRow(old(rows), o, st, now)
      ensures rows.Keys == old(rows.Keys) + {o.id}
      ensures o.id !in old(rows) ==> rows[o.id] == Row(o, st, 0.0, now)
      ensures o.id in old(rows) ==> rows[o.id] == old(rows[o.id]).(state := st)
      ensures forall id :: id in old(rows) && id != o.id ==> rows[id] == old(rows)[id]
    {
      if o.id in rows {
        rows := rows[o.id := rows[o.id].(state := st)];
      } else {
        rows := rows[o.id := Row(o, st, 0.0, now)];
      }
    }

    method UpdateOrderState(id: string, st: OrderState, qty: real)
      modifies this
      ensures rows == UpdateRow(old(rows), id, st, qty)
      ensures rows.Keys == old(rows.Keys)
      ensures id in old(rows) ==> rows[id] == old(rows[id]).(state := st, filledQty := qty)
      ensures forall x :: x in old(rows) && x != id ==> rows[x] == old(rows)[x]
    {
      if id in rows {
        rows := rows[id := rows[id].(state := st, filledQty := qty)];
      }
    }

    /** Walks the table; each active row appears once, in an order the database chooses. */
    method GetActiveOrders() returns (orders: seq<Order>, states: map<string, OrderState>, filled: map<string, real>)
      requires WellKeyed(rows)
      ensures forall i, j :: 0 <= i < j < |orders| ==> orders[i].id != orders[j].id
      ensures forall i :: 0 <= i < |orders| ==> orders[i].id in ActiveIds(rows) && orders[i] == rows[orders[i].id].order
      ensures IdsOf(orders) == ActiveIds(rows)
      ensures states.Keys == ActiveIds(rows) && forall id :: id in states ==> states[id] == rows[id].state
      ensures filled.Keys == ActiveIds(rows) && forall id :: id in filled ==> filled[id] == rows[id].filledQty
      ensures forall id :: id in rows ==> (id in states <==> rows[id].state in {Pending, Submitted, PartiallyFilled})
    {
      orders, states, filled := [], map[], map[];
      var left := rows.Keys;
      while left != {}
        invariant left <= rows.Keys
        invariant states.Keys == ActiveIds(rows) - left && forall id :: id in states ==> states[id] == rows[id].state
        invariant filled.Keys == ActiveIds(rows) - left
        invariant forall id :: id in filled ==> filled[id] == rows[id].filledQty
        invariant IdsOf(orders) == states.Keys
        invariant forall i :: 0 <= i < |orders| ==> orders[i].id in states && orders[i] == rows[orders[i].id].order
        invariant forall i, j :: 0 <= i < j < |orders| ==> orders[i].id != orders[j].id
        decreases left
      {
        var id :| id in left;
        var row := rows[id];
        if !Terminal(row.state) {
          assert (orders + [row.order])[..|orders|] == orders;
          orders := orders + [row.order];
          states := states[id := row.state];
          filled := filled[id := row.filledQty];
        }
        left := left - {id};
      }
    }

    /** SELECT COUNT(*) of today's rows, optionally of one side: walks the table and tests each row once. */
    method GetDailyOrderCount(now: int, side: Option<Side>) returns (count: nat)
      ensures count == |CreatedSince(rows, Day(now) * DAY, side)|
      ensures var midnight := now / 86_400_000_000_000 * 86_400_000_000_000;
              count == |set id | id in rows && rows[id].createdAt >= midnight
                                 && (side.Some? ==> rows[id].order.side == side.value)|
    {
      var start := Day(now) * DAY;
      ghost var today := CreatedSince(rows, start, side);
      var left := rows.Keys;
      count := 0;
      while left != {}
        invariant left <= rows.Keys && count == |today - left|
        decreases left
      {
        hide CreatedSince;
        var id :| id in left;
        TodayHas(rows, start, side, id);
        TakeOut(today, left, id);
        if rows[id].createdAt >= start && (side.None? || rows[id].order.side == side.value) {
          count := count + 1;
        }
        left := left - {id};
      }
      assert today - left == today;
    }
  }

  lemma TodayHas(rows: Rows, start: int, side: Option<Side>, id: string)
    requires id in rows
    ensures id in CreatedSince(rows, start, side)
       <==> rows[id].createdAt >= start && (side.None? || rows[id].order.side == side.value)
  {}

  lemma TakeOut(ids: set<string>, left: set<string>, id: string)
    requires id in left
    ensures |ids - (left - {id})| == |ids - left| + if id in ids then 1 else 0
  {
    if id in ids {
      assert ids - (left - {id}) == (ids - left) + {id};
    } else {
      assert ids - (left - {id}) == ids - left;
    }
  }

  // ----------------------------------------------------------------- the memory

  function AddMem(m: Memory, o: Order, st: OrderState): Memory {
    Memory(m.orders[o.id := o], m.states[o.id := st])
  }

  function SetMem(m: Memory, id: string, st: OrderState): Memory {
    m.(states := m.states[id := st])
  }

  predicate Changes(m: Memory, id: string, st: OrderState) {
    id !in m.states || m.states[id] != st
  }

  /**
   The filled quantity a state-only update writes: the full quantity of a known order on FILLED,
   otherwise whatever the active list shows.
   */
  function StateOnlyQty(m: Memory, rows: Rows, id: string, st: OrderState): real {
    if st == Filled then
      if id in m.orders then m.orders[id].quantity else 0.0
    else
      if id in ActiveIds(rows) then rows[id].filledQty else 0.0
  }

  /** Copy every active row into memory, over whatever is there. */
  function Preload(m: Memory, rows: Rows): Memory {
    Memory(
      m.orders + map id | id in ActiveIds(rows) :: rows[id].order,
      m.states + map id | id in ActiveIds(rows) :: rows[id].state)
  }

  /** `now` is `m` with the rows `ids` copied over it. */
  ghost predicate Preloading(m: Memory, rows: Rows, ids: set<string>, now: Memory) {
    && ids <= rows.Keys
    && now.orders.Keys == m.orders.Keys + ids && now.states.Keys == m.states.Keys + ids
    && (forall id :: id in now.orders ==> now.orders[id] == if id in ids then rows[id].order else m.orders[id])
    && (forall id :: id in now.states ==> now.states[id] == if id in ids then rows[id].state else m.states[id])
  }

  /** One more entry copied over. */
  lemma CopyOneMore<V>(base: map<string, V>, ids: set<string>, now: map<string, V>, id: string, v: V)
    requires now.Keys == base.Keys + ids
    ensures now[id := v].Keys == base.Keys + (ids + {id})
    ensures forall x :: x in now[id := v] ==> now[id := v][x] == if x == id then v else now[x]
  {}

  lemma PreloadOneMore(m: Memory, rows: Rows, ids: set<string>, now: Memory, id: string)
    requires Preloading(m, rows, ids, now) && id in rows && rows[id].order.id == id
    ensures Preloading(m, rows, ids + {id}, AddMem(now, rows[id].order, rows[id].state))
  {
    CopyOneMore(m.orders, ids, now.orders, id, rows[id].order);
    CopyOneMore(m.states, ids, now.states, id, rows[id].state);
  }

  lemma PreloadDone(m: Memory, rows: Rows, now: Memory)
    requires Preloading(m, rows, ActiveIds(rows), now)
    ensures now == Preload(m, rows)
  {
    OverlayIs(m.orders, map id | id in ActiveIds(rows) :: rows[id].order, now.orders);
    OverlayIs(m.states, map id | id in ActiveIds(rows) :: rows[id].state, now.states);
  }

  /** Memory `p` is `m` with every active row put in, and what has no row left as it was. */
  ghost predicate Loaded(m: Memory, rows: Rows, p: Memory) {
    && (forall id :: id in rows && rows[id].state in {Pending, Submitted, PartiallyFilled} ==>
                       && id in p.orders && p.orders[id] == rows[id].order
                       && id in p.states && p.states[id] == rows[id].state)
    && (forall id :: id in m.states && id !in rows ==> id in p.states && p.states[id] == m.states[id])
  }

  lemma PreloadIs(m: Memory, rows: Rows)
    ensures Loaded(m, rows, Preload(m, rows))
  {
    assert forall id :: id in rows && rows[id].state in {Pending, Submitted, PartiallyFilled} ==> id in ActiveIds(rows);
  }

  lemma PreloadStarts(m: Memory, rows: Rows)
    ensures Preloading(m, rows, {}, m)
  {}

  lemma OverlayIs<V>(base: map<string, V>, top: map<string, V>, now: map<string, V>)
    requires now.Keys == base.Keys + top.Keys
    requires forall id :: id in now ==> now[id] == if id in top then top[id] else base[id]
    ensures now == base + top
  {}

  const EMPTY := Memory(map[], map[])

  function MemoryActive(m: Memory): set<string> {
    set id | id in m.orders && (id !in m.states || !Terminal(m.states[id]))
  }

  class OrderTracker {
    var orders: map<string, Order>
    var states: map<string, OrderState>
    var store: OrderStore?

    function Contents(): Memory
      reads this
    {
      Memory(orders, states)
    }

    constructor ()
      ensures Contents() == EMPTY && store == null
    {
      orders, states, store := map[], map[], null;
    }

    method WithStore(s: OrderStore)
      requires WellKeyed(s.rows)
      modifies this
      ensures store == s && s.rows == old(s.rows)
      ensures Contents() == Preload(old(Contents()), s.rows)
      ensures Loaded(old(Contents()), s.rows, Contents())
    {
      hide Preload, Preloading, Loaded;
      store := s;
      var active, st, _ := s.GetActiveOrders();
      ghost var ids := {};
      PreloadStarts(Contents(), s.rows);
      for i := 0 to |active|
        invariant ids == IdsOf(active[..i])
        invariant Preloading(old(Contents()), s.rows, ids, Contents())
        invariant store == s && s.rows == old(s.rows)
      {
        var o := active[i];
        assert active[..i + 1][..i] == active[..i];
        PreloadOneMore(old(Contents()), s.rows, ids, Contents(), o.id);
        ids := ids + {o.id};
        orders := orders[o.id := o];
        states := states[o.id := st[o.id]];
      }
      assert active[..|active|] == active;
      PreloadDone(old(Contents()), s.rows, Contents());
      PreloadIs(old(Contents()), s.rows);
    }

    method AddOrder(o: Order, st: OrderState, now: int)
      modifies this, store
      ensures store == old(store) && Contents() == AddMem(old(Contents()), o, st)
      ensures orders == old(orders)[o.id := o] && states == old(states)[o.id := st]
      ensures store != null ==> store.rows == SaveRow(old(store.rows), o, st, now)
      ensures store != null ==> o.id in store.rows && store.rows[o.id].state == st
    {
      orders := orders[o.id := o];
      states := states[o.id := st];
      if store != null {
        store.SaveOrder(o, st, now);
      }
    }

    method UpdateOrderState(id: string, st: OrderState) returns (changed: bool)
      requires store != null ==> WellKeyed(store.rows)
      modifies this, store
      ensures store == old(store) && changed == Changes(old(Contents()), id, st)
      ensures Contents() == SetMem(old(Contents()), id, st)
      ensures store != null ==>
                store.rows == if changed
                              then UpdateRow(old(store.rows), id, st,
                                             StateOnlyQty(old(Contents()), old(store.rows), id, st))
                              else old(store.rows)
      ensures orders == old(orders) && states == old(states)[id := st]
      ensures changed <==> id !in old(states) || old(states)[id] != st
      ensures changed && store != null && id in old(store.rows) ==>
                var was, row := old(store.rows)[id], store.rows[id];
                && row.state == st
                && row.filledQty == if st == Filled then (if id in orders then orders[id].quantity else 0.0)
                                    else if was.state in {Pending, Submitted, PartiallyFilled} then was.filledQty
                                    else 0.0
    {
      changed := id !in states || states[id] != st;
      if changed {
        states := states[id := st];
        var qty := 0.0;
        if st == Filled {
          if id in orders {
            qty := orders[id].quantity;
          }
        } else if store != null {
          var _, _, filled := store.GetActiveOrders();
          if id in filled {
            qty := filled[id];
          }
        }
        if store != null {
          store.UpdateOrderState(id, st, qty);
        }
      }
    }

    method UpdateOrderStateAndQty(id: string, st: OrderState, qty: real) returns (changed: bool)
      modifies this, store
      ensures store == old(store) && changed == Changes(old(Contents()), id, st)
      ensures Contents() == SetMem(old(Contents()), id, st)
      ensures store != null ==> store.rows == UpdateRow(old(store.rows), id, st, qty)
      ensures orders == old(orders) && states == old(states)[id := st]
      ensures changed <==> id !in old(states) || old(states)[id] != st
      ensures store != null && id in old(store.rows) ==>
                store.rows[id] == old(store.rows)[id].(state := st, filledQty := qty)
    {
      changed := id !in states || states[id] != st;
      states := states[id := st];
      if store != null {
        store.UpdateOrderState(id, st, qty);
      }
    }

    method GetAllActiveOrders() returns (active: seq<Order>)
      requires forall id :: id in orders ==> orders[id].id == id
      ensures forall i, j :: 0 <= i < j < |active| ==> active[i].id != active[j].id
      ensures forall i :: 0 <= i < |active| ==> active[i].id in orders && active[i] == orders[active[i].id]
      ensures IdsOf(active) == MemoryActive(Contents())
      ensures forall id :: id in orders ==>
                             (id in IdsOf(active)
                              <==> (id !in states || states[id] in {Pending, Submitted, PartiallyFilled}))
    {
      active := [];
      var left := orders.Keys;
      while left != {}
        invariant left <= orders.Keys
        invariant IdsOf(active) == MemoryActive(Contents()) - left
        invariant forall i :: 0 <= i < |active| ==> active[i].id in IdsOf(active)
        invariant forall i :: 0 <= i < |active| ==> active[i].id in orders && active[i] == orders[active[i].id]
        invariant forall i, j :: 0 <= i < j < |active| ==> active[i].id != active[j].id
        decreases left
      {
        var id :| id in left;
        if id !in states || !Terminal(states[id]) {
          assert (active + [orders[id]])[..|active|] == active;
          active := active + [orders[id]];
        }
        left := left - {id};
      }
    }
  }

  // ------------------------------------------------- the tracker refines the table

  datatype Book = Book(mem: Memory, rows: Rows)

  datatype Op =
    | Reload                                      // WithStore again on the same table
    | Restart                                     // a new process: empty tracker, then WithStore
    | Add(o: Order, st: OrderState, now: int)
    | SetState(id: string, st: OrderState)
    | SetStateAndQty(id: string, st: OrderState, qty: real)

  function Boot(rows: Rows): Book {
    Book(Preload(EMPTY, rows), rows)
  }

  function Apply(b: Book, op: Op): Book {
    match op
    case Reload => Book(Preload(b.mem, b.rows), b.rows)
    case Restart => Boot(b.rows)
    case Add(o, st, now) => Book(AddMem(b.mem, o, st), SaveRow(b.rows, o, st, now))
    case SetState(id, st) =>
      Book(SetMem(b.mem, id, st),
           if Changes(b.mem, id, st) then UpdateRow(b.rows, id, st, StateOnlyQty(b.mem, b.rows, id, st)) else b.rows)
    case SetStateAndQty(id, st, qty) => Book(SetMem(b.mem, id, st), UpdateRow(b.rows, id, st, qty))
  }

  function ApplyAll(b: Book, ops: seq<Op>): Book
    decreases |ops|
  {
    if ops == [] then b else ApplyAll(Apply(b, ops[0]), ops[1..])
  }

  /** Memory never contradicts the table, and forgets only finished orders. */
  ghost predicate Mirrors(b: Book) {
    && WellKeyed(b.rows)
    && (forall id :: id in b.rows ==>
                       if id in b.mem.states then b.rows[id].state == b.mem.states[id] else Terminal(b.rows[id].state))
    && (forall id :: id in b.mem.orders ==> id in b.rows && id in b.mem.states && b.mem.orders[id].id == id)
  }

  lemma BootMirrors(rows: Rows)
    requires WellKeyed(rows)
    ensures Mirrors(Boot(rows))
    ensures MemoryActive(Boot(rows).mem) == ActiveIds(rows)
  {}

  lemma SaveMirrors(b: Book, o: Order, st: OrderState, now: int)
    requires Mirrors(b)
    ensures Mirrors(Apply(b, Add(o, st, now)))
  {}

  lemma ApplyMirrors(b: Book, op: Op)
    requires Mirrors(b)
    ensures Mirrors(Apply(b, op)) && b.rows.Keys <= Apply(b, op).rows.Keys
  {
    match op
    case Reload =>
    case Restart => BootMirrors(b.rows);
    case Add(o, st, now) => SaveMirrors(b, o, st, now);
    case SetState(id, st) =>
    case SetStateAndQty(id, st, qty) =>
  }

  /** Over any run of operations and restarts, the tracker stays a faithful cache of the table. */
  lemma {:induction false} TrackerRefinesStore(b: Book, ops: seq<Op>)
    requires Mirrors(b)
    ensures Mirrors(ApplyAll(b, ops))
    ensures MemoryActive(ApplyAll(b, ops).mem) <= ActiveIds(ApplyAll(b, ops).rows)
    ensures b.rows.Keys <= ApplyAll(b, ops).rows.Keys
    decreases |ops|
  {
    if ops != [] {
      ApplyMirrors(b, ops[0]);
      TrackerRefinesStore(Apply(b, ops[0]), ops[1..]);
    }
  }

  /** A restart at any point keeps every order the tracker thought active, with its state. */
  lemma RestartLosesNoActiveOrder(b: Book, ops: seq<Op>, id: string)
    requires Mirrors(b) && id in MemoryActive(ApplyAll(b, ops).mem)
    ensures var before, after := ApplyAll(b, ops), Apply(ApplyAll(b, ops), Restart);
            && id in MemoryActive(after.mem)
            && id in after.mem.states && id in before.mem.states && after.mem.states[id] == before.mem.states[id]
            && after.rows == before.rows
  {
    TrackerRefinesStore(b, ops);
  }

  /** After a restart the duplicate check knows an ID exactly when its stored row is still active. */
  lemma RestartForgetsFinishedOrders(b: Book, id: string)
    ensures id in Apply(b, Restart).mem.states <==> id in ActiveIds(b.rows)
  {}

  ghost predicate Agree(b: Book) {
    MemoryActive(b.mem) == ActiveIds(b.rows)
  }

  /** A caller that revives a stored order the tracker does not hold. */
  predicate Strays(b: Book, op: Op) {
    && (op.SetState? || op.SetStateAndQty?)
    && op.id in b.rows && op.id !in b.mem.orders && !Terminal(op.st)
  }

  lemma AgreementKeptIff(b: Book, op: Op)
    requires Mirrors(b) && Agree(b)
    ensures Agree(Apply(b, op)) <==> !Strays(b, op)
  {
    assert forall id :: id in b.rows && id in b.mem.states ==> b.rows[id].state == b.mem.states[id];
    hide Mirrors, Agree, Preload, StateOnlyQty, SaveRow, AddMem;
    var after := Apply(b, op);
    match op
    case Reload => ReloadAgrees(b);
    case Restart => RestartAgrees(b);
    case Add(o, st, now) => AddAgrees(b, o, st, now);
    case SetState(id, st) => UpdateAgreement(b, after, id, st);
    case SetStateAndQty(id, st, qty) => UpdateAgreement(b, after, id, st);
  }

  lemma RestartAgrees(b: Book)
    requires Mirrors(b)
    ensures Agree(Apply(b, Restart))
  {
    BootMirrors(b.rows);
  }

  lemma ReloadAgrees(b: Book)
    requires Mirrors(b)
    ensures Agree(Apply(b, Reload))
  {
    ApplyMirrors(b, Reload);
  }

  lemma AddAgrees(b: Book, o: Order, st: OrderState, now: int)
    requires Mirrors(b) && Agree(b)
    ensures Agree(Apply(b, Add(o, st, now)))
  {
    var after := Apply(b, Add(o, st, now));
    var bump := if Terminal(st) then {} else {o.id};
    assert MemoryActive(after.mem) == MemoryActive(b.mem) - {o.id} + bump;
    assert ActiveIds(after.rows) == ActiveIds(b.rows) - {o.id} + bump;
  }

  lemma ActiveAfterUpdate(rows: Rows, after: Rows, id: string, st: OrderState)
    requires after.Keys == rows.Keys
    requires forall x :: x in rows ==> after[x].state == if x == id then st else rows[x].state
    ensures ActiveIds(after) == ActiveIds(rows) - {id} + if id in rows && !Terminal(st) then {id} else {}
  {}

  lemma MemoryActiveAfterUpdate(m: Memory, id: string, st: OrderState)
    ensures MemoryActive(SetMem(m, id, st))
         == MemoryActive(m) - {id} + if id in m.orders && !Terminal(st) then {id} else {}
  {}

  lemma UpdateAgreement(b: Book, after: Book, id: string, st: OrderState)
    requires Mirrors(b) && Agree(b)
    requires after.mem == SetMem(b.mem, id, st) && after.rows.Keys == b.rows.Keys
    requires forall x :: x in b.rows ==> after.rows[x].state == if x == id then st else b.rows[x].state
    ensures Agree(after) <==> !(id in b.rows && id !in b.mem.orders && !Terminal(st))
  {
    assert id in b.mem.orders ==> id in b.rows;
    hide Mirrors, ActiveIds, MemoryActive, SetMem;
    ActiveAfterUpdate(b.rows, after.rows, id, st);
    MemoryActiveAfterUpdate(b.mem, id, st);
  }

  /** Every prefix of the run agrees on the active orders exactly when no operation strays. */
  ghost predicate AgreesThroughout(b: Book, ops: seq<Op>)
    decreases |ops|
  {
    Agree(b) && (ops != [] ==> AgreesThroughout(Apply(b, ops[0]), ops[1..]))
  }

  predicate NeverStrays(b: Book, ops: seq<Op>)
    decreases |ops|
  {
    ops != [] ==> !Strays(b, ops[0]) && NeverStrays(Apply(b, ops[0]), ops[1..])
  }

  lemma {:induction false} ActiveSetsAgreeIff(b: Book, ops: seq<Op>)
    requires Mirrors(b) && Agree(b)
    ensures AgreesThroughout(b, ops) <==> NeverStrays(b, ops)
    decreases |ops|
  {
    if ops != [] {
      AgreementKeptIff(b, ops[0]);
      if !Strays(b, ops[0]) {
        ApplyMirrors(b, ops[0]);
        ActiveSetsAgreeIff(Apply(b, ops[0]), ops[1..]);
      }
    }
  }

  /**
   A state-only update is meant to keep the stored filled quantity, or set it to the order's full
   quantity on FILLED.  On other states it keeps it exactly when nothing changes, the row is
   active, or there is nothing to lose: on a finished row the quantity is reset to zero.
   */
  lemma StateOnlyUpdateKeepsQtyIff(b: Book, id: string, st: OrderState)
    requires id in b.rows && st != Filled
    ensures Apply(b, SetState(id, st)).rows[id].filledQty == b.rows[id].filledQty
       <==> (!Changes(b.mem, id, st) || !Terminal(b.rows[id].state) || b.rows[id].filledQty == 0.0)
  {
    assert id in ActiveIds(b.rows) <==> !Terminal(b.rows[id].state);
  }

  /** The race that hits it: a streamed FILLED lands before the worker's own SUBMITTED. */
  lemma LateSubmittedErasesFill(o: Order, now: int)
    requires o.quantity > 0.0
    ensures var ops := [Add(o, Pending, now), SetStateAndQty(o.id, Filled, o.quantity), SetState(o.id, Submitted)];
            var b := ApplyAll(Boot(map[]), ops);
            o.id in b.rows && b.rows[o.id].state == Submitted && b.rows[o.id].filledQty == 0.0
  {
    var b0 := Boot(map[]);
    var b1 := Apply(b0, Add(o, Pending, now));
    var b2 := Apply(b1, SetStateAndQty(o.id, Filled, o.quantity));
    var b3 := Apply(b2, SetState(o.id, Submitted));
    var ops := [Add(o, Pending, now), SetStateAndQty(o.id, Filled, o.quantity), SetState(o.id, Submitted)];
    assert ops[1..] == [SetStateAndQty(o.id, Filled, o.quantity), SetState(o.id, Submitted)];
    assert ops[1..][1..] == [SetState(o.id, Submitted)] && ops[1..][1..][1..] == [];
    assert ApplyAll(b0, ops) == ApplyAll(b1, ops[1..]) == ApplyAll(b2, ops[1..][1..]) == ApplyAll(b3, []);
    assert b2.rows[o.id].state == Filled;
  }
}
