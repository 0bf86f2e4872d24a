/**
 * What every row of the order table says (api/routers/paypal.py:35-223), told by the events alone:
 * which creation stored it, and which event wrote its status and its transaction last.
 */
module PaymentRows {
  import opened Options
  import opened PaymentLedger
  import opened PaymentSteps

  /** The last value written, or the initial one. */
  function LastOr<T>(writes: seq<Option<T>>, initial: T): T {
    if writes == [] then initial
    else if writes[|writes| - 1].Some? then writes[|writes| - 1].value
    else LastOr(writes[..|writes| - 1], initial)
  }

  lemma {:induction false} LastOrNext<T>(writes: seq<Option<T>>, w: Option<T>, initial: T)
    ensures LastOr(writes + [w], initial) == if w.Some? then w.value else LastOr(writes, initial)
  {
    assert (writes + [w])[..|writes|] == writes;
  }

  // ---------------------------------------------------------------- the table from the events

  predicate Creates(e: Event, id: string) {
    e.CreateOrder? && e.id == id && e.amount > 0
  }

  /** The place of the first event that creates the order, or the length of the trace. */
  function FirstAt(trace: seq<Event>, id: string): (i: nat)
    ensures i <= |trace|
    ensures i < |trace| ==> Creates(trace[i], id)
    ensures forall k :: 0 <= k < i ==> !Creates(trace[k], id)
  {
    if trace == [] || Creates(trace[0], id) then 0 else 1 + FirstAt(trace[1..], id)
  }

  predicate Stored(trace: seq<Event>, id: string) {
    FirstAt(trace, id) < |trace|
  }

  /** The capture id that an event writes to the order, if it is stored by then. */
  function CaptureWritten(past: seq<Event>, e: Event, id: string): Option<Option<string>> {
    if Stored(past, id) && Completes(e, id) then Some(CaptureId(e)) else None
  }

  function CapturesWritten(trace: seq<Event>, id: string): (w: seq<Option<Option<string>>>)
    ensures |w| == |trace|
  {
    seq(|trace|, i requires 0 <= i < |trace| => CaptureWritten(trace[..i], trace[i], id))
  }

  /** The capture id of the last event that completed the stored order. */
  function TransactionOf(trace: seq<Event>, id: string): Option<string> {
    LastOr(CapturesWritten(trace, id), None)
  }

  /** A refund reaches the order stored first among those whose transaction is the refunded capture. */
  ghost predicate RefundReaches(past: seq<Event>, capture: Option<string>, id: string) {
    && capture.Some? && Stored(past, id) && TransactionOf(past, id) == capture
    && forall other: string :: Stored(past, other) && FirstAt(past, other) < FirstAt(past, id) ==>
         TransactionOf(past, other) != capture
  }

  /** The status that an event writes to the order, if it is stored by then. */
  ghost function StatusWritten(past: seq<Event>, e: Event, id: string): Option<Status> {
    if !Stored(past, id) then None else
    match e
    case Capture(x, Reported(true, _)) => if x == id then Some(Completed) else None
    case Capture(x, Reported(false, _)) => if x == id then Some(Failed) else None
    case CompletedWebhook(x, _) => if x == Some(id) && id != "" then Some(Completed) else None
    case DeniedWebhook(x) => if x == Some(id) && id != "" then Some(Denied) else None
    case RefundedWebhook(capture) => if RefundReaches(past, capture, id) then Some(Refunded) else None
    case _ => None
  }

  ghost function StatusesWritten(trace: seq<Event>, id: string): (w: seq<Option<Status>>)
    ensures |w| == |trace|
  {
    seq(|trace|, i requires 0 <= i < |trace| => StatusWritten(trace[..i], trace[i], id))
  }

  /** The whole row, from the events alone. */
  ghost function RowFromEvents(trace: seq<Event>, id: string): Option<Order> {
    if !Stored(trace, id) then None else
    var e := trace[FirstAt(trace, id)];
    Some(Order(id, e.client, e.amount, LastOr(StatusesWritten(trace, id), Pending), TransactionOf(trace, id)))
  }

  lemma {:induction false} FirstAtNext(front: seq<Event>, e: Event, id: string)
    ensures FirstAt(front + [e], id)
            == if Stored(front, id) then FirstAt(front, id)
               else if Creates(e, id) then |front| else |front| + 1
  {
    if front == [] {
      assert ([] + [e])[1..] == [];
    } else {
      FirstAtNext(front[1..], e, id);
      assert (front + [e])[1..] == front[1..] + [e];
    }
  }

  lemma {:induction false} TransactionNext(front: seq<Event>, e: Event, id: string)
    ensures TransactionOf(front + [e], id)
            == if Stored(front, id) && Completes(e, id) then CaptureId(e) else TransactionOf(front, id)
  {
    hide Stored, Completes;
    var all, w := front + [e], CapturesWritten(front, id);
    assert forall i :: 0 <= i < |front| ==> all[..i] == front[..i];
    assert all[..|front|] == front;
    assert CapturesWritten(all, id) == w + [CaptureWritten(front, e, id)];
    LastOrNext(w, CaptureWritten(front, e, id), None);
  }

  lemma {:induction false} StatusNext(front: seq<Event>, e: Event, id: string)
    ensures LastOr(StatusesWritten(front + [e], id), Pending)
            == var s := StatusWritten(front, e, id);
               if s.Some? then s.value else LastOr(StatusesWritten(front, id), Pending)
  {
    hide StatusWritten;
    var all, w := front + [e], StatusesWritten(front, id);
    assert forall i :: 0 <= i < |front| ==> all[..i] == front[..i];
    assert all[..|front|] == front;
    assert StatusesWritten(all, id) == w + [StatusWritten(front, e, id)];
    LastOrNext(w, StatusWritten(front, e, id), Pending);
  }

  /** Nothing is written before the order is stored. */
  lemma {:induction false} NothingWritten(trace: seq<Event>, id: string)
    requires !Stored(trace, id)
    ensures TransactionOf(trace, id) == None && LastOr(StatusesWritten(trace, id), Pending) == Pending
  {
    hide Stored, StatusWritten, Completes, StatusesWritten, CapturesWritten;
    if trace == [] {
      NothingWrittenYet(id);
    } else {
      var front, e := trace[..|trace| - 1], trace[|trace| - 1];
      assert trace == front + [e];
      StoredNext(front, e, id);
      NothingWritten(front, id);
      TransactionNext(front, e, id);
      StatusNext(front, e, id);
      NotWritten(front, e, id);
    }
  }

  lemma {:induction false} NothingWrittenYet(id: string)
    ensures TransactionOf([], id) == None && LastOr(StatusesWritten([], id), Pending) == Pending
  {
  }

  lemma {:induction false} NotWritten(past: seq<Event>, e: Event, id: string)
    requires !Stored(past, id)
    ensures StatusWritten(past, e, id).None?
  {
  }

  lemma {:induction false} StoredNext(front: seq<Event>, e: Event, id: string)
    ensures Stored(front + [e], id) <==> Stored(front, id) || Creates(e, id)
  {
    hide Creates;
    FirstAtNext(front, e, id);
  }

  // ---------------------------------------------------------------- the order of the rows

  /** The rows stand in the order of the events that created them. */
  ghost predicate InOrder(trace: seq<Event>, orders: seq<Order>) {
    && (forall i :: 0 <= i < |orders| ==> Stored(trace, orders[i].id))
    && (forall i, j :: 0 <= i < j < |orders| ==>
          FirstAt(trace, orders[i].id) < FirstAt(trace, orders[j].id))
  }

  lemma {:induction false} SameIdsInOrder(front: seq<Event>, e: Event, a: seq<Order>, b: seq<Order>)
    requires InOrder(front, a) && SameOrders(a, b)
    ensures InOrder(front + [e], b)
  {
    hide FirstAt;
    forall i | 0 <= i < |b|
      ensures FirstAt(front + [e], b[i].id) == FirstAt(front, a[i].id) < |front|
    {
      assert Stored(front, a[i].id);
      FirstAtNext(front, e, b[i].id);
    }
  }

  lemma {:induction false} AppendedInOrder(front: seq<Event>, e: Event, orders: seq<Order>, o: Order)
    requires InOrder(front, orders) && Creates(e, o.id) && !Stored(front, o.id)
    ensures InOrder(front + [e], orders + [o])
  {
    hide FirstAt;
    var all := orders + [o];
    SameIdsInOrder(front, e, orders, orders);
    FirstAtNext(front, e, o.id);
    forall i | 0 <= i < |orders|
      ensures FirstAt(front + [e], orders[i].id) < |front|
    {
      assert Stored(front, orders[i].id);
      FirstAtNext(front, e, orders[i].id);
    }
  }

  // ---------------------------------------------------------------- the theorem

  ghost predicate RowsFromEvents(trace: seq<Event>, s: State) {
    forall id: string :: Find(s.orders, id) == RowFromEvents(trace, id)
  }

  /** The search by transaction returns the first row that has it. */
  lemma {:induction false} FirstWith(orders: seq<Order>, t: Option<string>)
    ensures var o := FindByTransaction(orders, t);
            && (o.Some? ==> exists k :: 0 <= k < |orders| && orders[k] == o.value
                              && forall j :: 0 <= j < k ==> orders[j].transaction != t)
            && (o.None? && t.Some? ==> forall j :: 0 <= j < |orders| ==> orders[j].transaction != t)
  {
    if t.Some? && orders != [] {
      FirstWith(orders[1..], t);
      assert forall j :: 0 < j < |orders| ==> orders[j] == orders[1..][j - 1];
      if orders[0].transaction == t {
        assert orders[0] == FindByTransaction(orders, t).value;
      } else if FindByTransaction(orders, t).Some? {
        var k :| 0 <= k < |orders[1..]| && orders[1..][k] == FindByTransaction(orders, t).value
                 && forall j :: 0 <= j < k ==> orders[1..][j].transaction != t;
        assert orders[k + 1] == FindByTransaction(orders, t).value;
        forall j | 0 <= j < k + 1
          ensures orders[j].transaction != t
        {
          assert j > 0 ==> orders[1..][j - 1].transaction != t;
        }
      } else {
        forall j | 0 <= j < |orders|
          ensures orders[j].transaction != t
        {
          assert j > 0 ==> orders[1..][j - 1].transaction != t;
        }
      }
    }
  }

  /** What the theorem says of the rows seen one by one. */
  ghost predicate TableOf(trace: seq<Event>, s: State) {
    InOrder(trace, s.orders) && UniqueIds(s.orders) && RowsFromEvents(trace, s)
  }

  lemma {:induction false} RowIs(trace: seq<Event>, s: State, k: nat)
    requires TableOf(trace, s) && k < |s.orders|
    ensures Stored(trace, s.orders[k].id) && TransactionOf(trace, s.orders[k].id) == s.orders[k].transaction
  {
    hide FirstAt, TransactionOf, StatusesWritten, Find, UniqueIds;
    FindUnique(s.orders, s.orders[k]);
    assert Find(s.orders, s.orders[k].id) == RowFromEvents(trace, s.orders[k].id);
  }

  lemma {:induction false} HasRow(trace: seq<Event>, s: State, id: string) returns (k: nat)
    requires TableOf(trace, s) && Stored(trace, id)
    ensures k < |s.orders| && s.orders[k].id == id
  {
    hide FirstAt, TransactionOf, StatusesWritten, UniqueIds, Find;
    var o := Find(s.orders, id);
    assert o == RowFromEvents(trace, id);
    k :| 0 <= k < |s.orders| && s.orders[k] == o.value;
  }

  lemma {:induction false} EarlierRow(trace: seq<Event>, orders: seq<Order>, i: nat, k: nat)
    requires InOrder(trace, orders) && i < |orders| && k < |orders|
    ensures i < k <==> FirstAt(trace, orders[i].id) < FirstAt(trace, orders[k].id)
  {
    hide FirstAt, Stored;
  }

  /** A refund finds exactly the order it reaches. */
  lemma {:induction false} FoundIsReached(front: seq<Event>, s: State, t: Option<string>, id: string)
    requires TableOf(front, s)
    requires var o := FindByTransaction(s.orders, t); o.Some? && o.value.id == id
    ensures RefundReaches(front, t, id)
  {
    hide FirstAt, TransactionOf, Stored, FindByTransaction, TableOf;
    FirstWith(s.orders, t);
    var o := FindByTransaction(s.orders, t).value;
    var k :| 0 <= k < |s.orders| && s.orders[k] == o && forall j :: 0 <= j < k ==> s.orders[j].transaction != t;
    RowIs(front, s, k);
    forall other: string | Stored(front, other) && FirstAt(front, other) < FirstAt(front, id)
      ensures TransactionOf(front, other) != t
    {
      var i := HasRow(front, s, other);
      RowIs(front, s, i);
      assert InOrder(front, s.orders) by { TableInOrder(front, s); }
      EarlierRow(front, s.orders, i, k);
    }
  }

  lemma {:induction false} TableInOrder(trace: seq<Event>, s: State)
    requires TableOf(trace, s)
    ensures InOrder(trace, s.orders) && UniqueIds(s.orders)
  {
  }

  lemma {:induction false} ReachedIsFound(front: seq<Event>, s: State, t: Option<string>, id: string)
    requires TableOf(front, s) && RefundReaches(front, t, id)
    ensures var o := FindByTransaction(s.orders, t); o.Some? && o.value.id == id
  {
    hide FirstAt, TransactionOf, Stored, FindByTransaction, TableOf;
    FirstWith(s.orders, t);
    var r := HasRow(front, s, id);
    RowIs(front, s, r);
    var o := FindByTransaction(s.orders, t);
    var k :| 0 <= k < |s.orders| && s.orders[k] == o.value
             && forall j :: 0 <= j < k ==> s.orders[j].transaction != t;
    RowIs(front, s, k);
    TableInOrder(front, s);
    EarlierRow(front, s.orders, k, r);
  }

  lemma {:induction false} RefundFinds(front: seq<Event>, s: State, e: Event, id: string)
    requires TableOf(front, s) && e.RefundedWebhook?
    ensures RefundOf(s, e, id) <==> RefundReaches(front, e.capture, id)
  {
    hide TableOf, RefundReaches, FindByTransaction;
    var o := FindByTransaction(s.orders, e.capture);
    if o.Some? && o.value.id == id {
      FoundIsReached(front, s, e.capture, id);
    }
    if RefundReaches(front, e.capture, id) {
      ReachedIsFound(front, s, e.capture, id);
    }
  }

  lemma {:induction false} RowOfTable(trace: seq<Event>, s: State, id: string)
    requires TableOf(trace, s)
    ensures Find(s.orders, id) == RowFromEvents(trace, id)
  {
  }

  lemma {:induction false} OnlyRefunds(s: State, e: Event, id: string)
    requires !e.RefundedWebhook?
    ensures !RefundOf(s, e, id)
  {
  }

  /** What the event writes to the row, said twice: by the handlers and by the events. */
  lemma {:induction false} WrittenToRow(past: seq<Event>, s: State, e: Event, o: Order)
    requires Stored(past, o.id)
    requires RefundOf(s, e, o.id) <==> e.RefundedWebhook? && RefundReaches(past, e.capture, o.id)
    ensures var w := StatusWritten(past, e, o.id);
            RowAfter(s, e, o) == o.(status := if w.Some? then w.value else o.status,
                                    transaction := if Completes(e, o.id) then CaptureId(e) else o.transaction)
  {
    hide RefundOf, RefundReaches, Stored;
    if e.CompletedWebhook? && Present(e.order) {
      assert e.order == Some(e.order.value);
    }
    if e.DeniedWebhook? && Present(e.order) {
      assert e.order == Some(e.order.value);
    }
  }

  lemma {:induction false} RowNextEvent(front: seq<Event>, s: State, e: Event, id: string)
    requires TableOf(front, s)
    ensures Find(Step(s, e).orders, id) == RowFromEvents(front + [e], id)
  {
    hide Step, Find, FirstAt, TransactionOf, StatusesWritten, RefundReaches, TableOf, RefundOf, Completes;
    hide StatusWritten, RowAfter;
    FindAfter(s, e, id);
    FirstAtNext(front, e, id);
    StatusNext(front, e, id);
    TransactionNext(front, e, id);
    RowOfTable(front, s, id);
    if Stored(front, id) {
      assert (front + [e])[FirstAt(front, id)] == front[FirstAt(front, id)];
      if e.RefundedWebhook? {
        RefundFinds(front, s, e, id);
      } else {
        OnlyRefunds(s, e, id);
      }
      WrittenToRow(front, s, e, Find(s.orders, id).value);
    } else {
      NothingWritten(front, id);
      NotWritten(front, e, id);
    }
  }

  lemma {:induction false} StepInOrder(front: seq<Event>, s: State, e: Event)
    requires TableOf(front, s)
    ensures InOrder(front + [e], Step(s, e).orders)
  {
    hide Find, FirstAt, TransactionOf, StatusesWritten, UniqueIds, InOrder, Stored;
    StepKeepsOrders(s, e);
    SameIdsInOrder(front, e, s.orders, s.orders);
    if !e.CreateOrder? {
      hide Step;
      SameIdsInOrder(front, e, s.orders, Step(s, e).orders);
    } else if e.amount > 0 && Find(s.orders, e.id).None? {
      assert RowFromEvents(front, e.id) == None;
      AppendedInOrder(front, e, s.orders, Order(e.id, e.client, e.amount, Pending, None));
    }
  }

  lemma {:induction false} TableFromEvents(trace: seq<Event>)
    ensures TableOf(trace, Run(trace))
  {
    hide Step, TableOf, RowFromEvents;
    if trace == [] {
      EmptyTable();
    } else {
      var front, e := trace[..|trace| - 1], trace[|trace| - 1];
      var s := Run(front);
      TableFromEvents(front);
      TableStaysSound(trace);
      StepInOrder(front, s, e);
      forall id: string
        ensures Find(Step(s, e).orders, id) == RowFromEvents(front + [e], id)
      {
        RowNextEvent(front, s, e, id);
      }
      assert front + [e] == trace;
      WholeTable(trace, Step(s, e));
    }
  }

  lemma {:induction false} EmptyTable()
    ensures TableOf([], Run([]))
  {
  }

  lemma {:induction false} WholeTable(trace: seq<Event>, s: State)
    requires InOrder(trace, s.orders) && SoundTable(s.orders)
    requires forall id: string :: Find(s.orders, id) == RowFromEvents(trace, id)
    ensures TableOf(trace, s)
  {
  }

  /**
   * Main theorem: after every trace an order is in the table exactly if an event created it with a
   * positive amount, with the client and amount of the first one, the status that the last event
   * addressing it wrote (PENDING if there is none), and the capture id of the last completion.
   */
  lemma {:induction false} RowIsLastWritten(trace: seq<Event>, id: string)
    ensures Find(Run(trace).orders, id) == RowFromEvents(trace, id)
  {
    hide Run, Find, RowFromEvents;
    TableFromEvents(trace);
    RowOfTable(trace, Run(trace), id);
  }

  // ---------------------------------------------------------------- interleaved handlers

  /** The status that a handler's next call writes to the order. */
  function StatusOfCall(h: Handler, id: string): Option<Status> {
    match h
    case CaptureUpdate(o, _) => if o.id == id then Some(Completed) else None
    case HookUpdate(x, _) => if x == id then Some(Completed) else None
    case CaptureFail(x) => if x == id then Some(Failed) else None
    case DeniedUpdate(x) => if x == id then Some(Denied) else None
    case RefundUpdate(o) => if o.id == id then Some(Refunded) else None
    case _ => None
  }

  /** The status that an action writes to the order, if it is stored by then. */
  function StatusOfAction(sys: System, a: Action, id: string): Option<Status> {
    if a.Begin? || a.i >= |sys.handlers| || Find(sys.state.orders, id).None? then None
    else StatusOfCall(sys.handlers[a.i], id)
  }

  function StatusesCalled(actions: seq<Action>, id: string): (w: seq<Option<Status>>)
    ensures |w| == |actions|
  {
    seq(|actions|, n requires 0 <= n < |actions| => StatusOfAction(Exec(actions[..n]), actions[n], id))
  }

  lemma {:induction false} StatusCalledNext(front: seq<Action>, a: Action, id: string)
    ensures LastOr(StatusesCalled(front + [a], id), Pending)
            == var w := StatusOfAction(Exec(front), a, id);
               if w.Some? then w.value else LastOr(StatusesCalled(front, id), Pending)
  {
    hide StatusOfAction, Exec;
    var all, w := front + [a], StatusesCalled(front, id);
    assert forall n :: 0 <= n < |front| ==> all[..n] == front[..n];
    assert all[..|front|] == front;
    assert StatusesCalled(all, id) == w + [StatusOfAction(Exec(front), a, id)];
    LastOrNext(w, StatusOfAction(Exec(front), a, id), Pending);
  }

  /** Orders are inserted as pending. */
  ghost predicate InsertsPending(sys: System) {
    forall i :: 0 <= i < |sys.handlers| && sys.handlers[i].Insert? ==> sys.handlers[i].order.status == Pending
  }

  lemma {:induction false} DoInsertsPending(sys: System, a: Action)
    requires InsertsPending(sys)
    ensures InsertsPending(Do(sys, a))
  {
    hide Find, FindByTransaction, SetStatus, SetCompleted, Credit, Deduct;
  }

  lemma {:induction false} ActionWrites(sys: System, a: Action, id: string)
    requires InsertsPending(sys)
    ensures var o, o' := Find(sys.state.orders, id), Find(Do(sys, a).state.orders, id);
            var w := StatusOfAction(sys, a, id);
            && (o.Some? ==> o'.Some? && o'.value.status == if w.Some? then w.value else o.value.status)
            && (o.None? ==> w.None? && (o'.Some? ==> o'.value.status == Pending))
  {
    hide Find, Next;
    if a.Advance? && a.i < |sys.handlers| {
      FindNext(sys.state, sys.handlers[a.i], id);
    }
  }

  /** Under every schedule a row has the status that the last call addressing it wrote, or PENDING. */
  lemma {:induction false} EveryScheduleStatus(actions: seq<Action>, id: string)
    ensures var o := Find(Exec(actions).state.orders, id);
            LastOr(StatusesCalled(actions, id), Pending) == if o.Some? then o.value.status else Pending
    ensures InsertsPending(Exec(actions))
  {
    hide Find, Do, Run, StatusOfAction, InsertsPending, StatusesCalled;
    if actions == [] {
      NothingCalled(id);
    } else {
      var front, a := actions[..|actions| - 1], actions[|actions| - 1];
      EveryScheduleStatus(front, id);
      DoInsertsPending(Exec(front), a);
      ActionWrites(Exec(front), a, id);
      assert front + [a] == actions;
      StatusCalledNext(front, a, id);
    }
  }

  lemma {:induction false} NothingCalled(id: string)
    ensures LastOr(StatusesCalled([], id), Pending) == Pending
    ensures Find(Run([]).orders, id) == None && InsertsPending(System(Run([]), []))
  {
  }
}
