/**
 * The PayPal handlers with their `await`s (api/routers/paypal.py:89-223): every database call and
 * every call of the billing service is a step of its own, and any number of handlers in flight
 * interleave freely.
 */
module PaymentSteps {
  import opened Options
  import opened PaymentLedger

  /** Where a handler is: the next call it makes, with what its earlier reads gave it. */
  datatype Handler =
    | Insert(order: Order)
    | CaptureRead(id: string, transaction: Option<string>)
    | CaptureUpdate(order: Order, transaction: Option<string>)
    | CaptureCredit(order: Order)
    | CaptureFail(id: string)
    | HookUpdate(id: string, capture: Option<string>)
    | HookRead(id: string)
    | HookCredit(order: Order)
    | DeniedUpdate(id: string)
    | RefundFind(capture: Option<string>)
    | RefundUpdate(order: Order)
    | RefundDeduct(order: Order)
    | Done

  /** A handler once PayPal has answered it, or the signature has been checked. */
  function Start(e: Event): Handler {
    match e
    case CreateOrder(id, client, amount) =>
      if amount <= 0 then Done else Insert(Order(id, client, amount, Pending, None))
    case Capture(_, Raised) => Done
    case Capture(id, Reported(true, transaction)) => CaptureRead(id, transaction)
    case Capture(id, Reported(false, _)) => CaptureFail(id)
    case CompletedWebhook(order, capture) =>
      if Present(order) then HookUpdate(order.value, capture) else Done
    case DeniedWebhook(order) => if Present(order) then DeniedUpdate(order.value) else Done
    case RefundedWebhook(capture) => RefundFind(capture)
    case OtherWebhook => Done
  }

  /** The handler's next call: what it does to the tables, and where the handler is then. */
  function Next(s: State, h: Handler): (State, Handler) {
    match h
    case Insert(o) =>
      (if Find(s.orders, o.id).Some? then s else s.(orders := s.orders + [o]), Done)
    case CaptureRead(id, transaction) =>
      var o := Find(s.orders, id);
      (s, if o.Some? then CaptureUpdate(o.value, transaction) else Done)
    case CaptureUpdate(o, transaction) =>
      (s.(orders := SetCompleted(s.orders, o.id, transaction)), CaptureCredit(o))
    case CaptureCredit(o) => (Credit(s, o), Done)
    case CaptureFail(id) => (s.(orders := SetStatus(s.orders, id, Failed)), Done)
    case HookUpdate(id, capture) => (MarkCompleted(s, id, capture), HookRead(id))
    case HookRead(id) =>
      var o := Find(s.orders, id);
      (s, if o.Some? && o.value.status != Completed then HookCredit(o.value) else Done)
    case HookCredit(o) => (Credit(s, o), Done)
    case DeniedUpdate(id) => (s.(orders := SetStatus(s.orders, id, Denied)), Done)
    case RefundFind(capture) =>
      var o := FindByTransaction(s.orders, capture);
      (s, if o.Some? then RefundUpdate(o.value) else Done)
    case RefundUpdate(o) => (s.(orders := SetStatus(s.orders, o.id, Refunded)), RefundDeduct(o))
    case RefundDeduct(o) => (Deduct(s, o), Done)
    case Done => (s, Done)
  }

  /** Three calls are enough for every handler. */
  function Alone(s: State, h: Handler): (State, Handler) {
    var (s1, h1) := Next(s, h);
    var (s2, h2) := Next(s1, h1);
    Next(s2, h2)
  }

  /** A handler that nothing interrupts ends, and does what its event does. */
  lemma {:induction false} AloneIsStep(s: State, e: Event)
    ensures Alone(s, Start(e)) == (Step(s, e), Done)
  {
    hide Find, FindByTransaction, SetStatus, SetCompleted, Credit, Deduct;
  }

  // ---------------------------------------------------------------- many handlers in flight

  datatype System = System(state: State, handlers: seq<Handler>)

  /** A handler starts, or the `i`-th one makes its next call. */
  datatype Action = Begin(event: Event) | Advance(i: nat)

  function Do(sys: System, a: Action): System {
    match a
    case Begin(e) => sys.(handlers := sys.handlers + [Start(e)])
    case Advance(i) =>
      if i < |sys.handlers| then
        var (s, h) := Next(sys.state, sys.handlers[i]);
        System(s, sys.handlers[i := h])
      else sys
  }

  /** Any schedule at all of starts and calls. */
  function Exec(actions: seq<Action>): System {
    if actions == [] then System(Run([]), [])
    else Do(Exec(actions[..|actions| - 1]), actions[|actions| - 1])
  }

  lemma {:induction false} ExecMore(actions: seq<Action>, a: Action)
    ensures Exec(actions + [a]) == Do(Exec(actions), a)
  {
    hide Do;
    assert (actions + [a])[..|actions|] == actions;
  }

  /** The `n`-th handler starts and makes all its calls at once. */
  function Uninterrupted(n: nat, e: Event): seq<Action> {
    [Begin(e), Advance(n), Advance(n), Advance(n)]
  }

  lemma {:induction false} UninterruptedIsStep(actions: seq<Action>, e: Event)
    ensures var sys := Exec(actions);
            Exec(actions + Uninterrupted(|sys.handlers|, e))
            == System(Step(sys.state, e), sys.handlers + [Done])
  {
    hide Next, Start, Step, Exec;
    var sys := Exec(actions);
    var n := |sys.handlers|;
    var a1 := actions + [Begin(e)];
    var a2 := a1 + [Advance(n)];
    var a3 := a2 + [Advance(n)];
    ExecMore(actions, Begin(e));
    ExecMore(a1, Advance(n));
    ExecMore(a2, Advance(n));
    ExecMore(a3, Advance(n));
    AloneIsStep(sys.state, e);
    assert a3 + [Advance(n)] == actions + Uninterrupted(n, e);
    assert Exec(a3 + [Advance(n)]).handlers == sys.handlers + [Done];
  }

  /** The handlers from the `n`-th on, one after the other. */
  function InTurn(n: nat, events: seq<Event>): seq<Action> {
    if events == [] then []
    else InTurn(n, events[..|events| - 1]) + Uninterrupted(n + |events| - 1, events[|events| - 1])
  }

  function StepAll(s: State, events: seq<Event>): State {
    if events == [] then s else Step(StepAll(s, events[..|events| - 1]), events[|events| - 1])
  }

  lemma {:induction false} InTurnIsSteps(actions: seq<Action>, events: seq<Event>)
    ensures var sys := Exec(actions);
            var t := Exec(actions + InTurn(|sys.handlers|, events));
            && t.state == StepAll(sys.state, events)
            && |t.handlers| == |sys.handlers| + |events| && t.handlers[..|sys.handlers|] == sys.handlers
  {
    hide Step, Exec, Uninterrupted;
    var n := |Exec(actions).handlers|;
    if events == [] {
      assert actions + [] == actions;
    } else {
      var front, e := events[..|events| - 1], events[|events| - 1];
      InTurnIsSteps(actions, front);
      UninterruptedIsStep(actions + InTurn(n, front), e);
      assert actions + InTurn(n, events) == actions + InTurn(n, front) + Uninterrupted(n + |events| - 1, e);
    }
  }

  lemma {:induction false} RunIsSteps(trace: seq<Event>)
    ensures Run(trace) == StepAll(Run([]), trace)
  {
    hide Step;
    if trace != [] {
      RunIsSteps(trace[..|trace| - 1]);
    }
  }

  /** Schedules that run the handlers one after the other are the runs of the ledger. */
  lemma {:induction false} SerialIsRun(trace: seq<Event>)
    ensures Exec(InTurn(0, trace)).state == Run(trace)
  {
    hide Do, InTurn, StepAll;
    InTurnIsSteps([], trace);
    RunIsSteps(trace);
    assert [] + InTurn(0, trace) == InTurn(0, trace);
  }

  /** The webhook's update, whole runs of other handlers, and then the webhook's read and credit. */
  function Interrupted(n: nat, hook: Event, events: seq<Event>): seq<Action> {
    [Begin(hook), Advance(n)] + InTurn(n + 1, events) + [Advance(n), Advance(n)]
  }

  lemma {:induction false} InterruptedIsHalves(
    actions: seq<Action>, id: string, capture: Option<string>, events: seq<Event>)
    requires id != ""
    ensures var sys := Exec(actions);
            var t := Exec(actions + Interrupted(|sys.handlers|, CompletedWebhook(Some(id), capture), events));
            && t.state == CreditUnlessCompleted(StepAll(MarkCompleted(sys.state, id, capture), events), id)
            && |t.handlers| == |sys.handlers| + 1 + |events|
  {
    hide Step, StepAll, Exec, Find, Credit, SetCompleted, InTurn;
    var sys, hook := Exec(actions), CompletedWebhook(Some(id), capture);
    var n := |sys.handlers|;
    var a1 := actions + [Begin(hook)];
    var a2 := a1 + [Advance(n)];
    var a3 := a2 + InTurn(n + 1, events);
    var a4 := a3 + [Advance(n)];
    ExecMore(actions, Begin(hook));
    ExecMore(a1, Advance(n));
    InTurnIsSteps(a2, events);
    assert Exec(a3).handlers[n] == Exec(a3).handlers[..n + 1][n] == HookRead(id);
    ExecMore(a3, Advance(n));
    ExecMore(a4, Advance(n));
    assert a4 + [Advance(n)] == actions + Interrupted(n, hook, events);
  }

  // ---------------------------------------------------------------- what every schedule keeps

  /** The rows a handler carries with it are rows of the table, but for status and transaction. */
  ghost predicate Known(orders: seq<Order>, o: Order) {
    var row := Find(orders, o.id);
    row.Some? && row.value.client == o.client && row.value.amount == o.amount && o.amount > 0
  }

  ghost predicate Informed(orders: seq<Order>, h: Handler) {
    match h
    case Insert(o) => o.amount > 0
    case CaptureUpdate(o, _) => Known(orders, o)
    case CaptureCredit(o) => Known(orders, o)
    case HookCredit(o) => Known(orders, o)
    case RefundUpdate(o) => Known(orders, o)
    case RefundDeduct(o) => Known(orders, o)
    case _ => true
  }

  /** Writing another status than COMPLETED to the order. */
  predicate Demotes(h: Handler, id: string) {
    match h
    case CaptureFail(x) => x == id
    case DeniedUpdate(x) => x == id
    case RefundUpdate(o) => o.id == id
    case _ => false
  }

  /** The row of the order after a call, whatever it was before. */
  function RowNext(h: Handler, o: Order): Order {
    match h
    case CaptureUpdate(x, t) => if x.id == o.id then o.(status := Completed, transaction := t) else o
    case HookUpdate(id, t) => if id == o.id then o.(status := Completed, transaction := t) else o
    case CaptureFail(id) => if id == o.id then o.(status := Failed) else o
    case DeniedUpdate(id) => if id == o.id then o.(status := Denied) else o
    case RefundUpdate(x) => if x.id == o.id then o.(status := Refunded) else o
    case _ => o
  }

  /** What one call makes of the row with a given id. */
  lemma {:induction false} FindNext(s: State, h: Handler, id: string)
    ensures var o, o' := Find(s.orders, id), Find(Next(s, h).0.orders, id);
            && Stays(o, o')
            && (o.None? ==> o' == if h.Insert? && h.order.id == id then Some(h.order) else None)
            && (o.Some? ==> o' == Some(RowNext(h, o.value)))
            && (o.Some? && o.value.status == Completed && !Demotes(h, id) ==> o'.value.status == Completed)
            && (h.HookUpdate? && h.id == id && o.Some? ==> o'.value.status == Completed)
  {
    hide Find, FindByTransaction, SetStatus, SetCompleted;
    match h
    case Insert(o) => FindAppended(s.orders, o, id);
    case CaptureUpdate(o, t) => FindCompleted(s.orders, o.id, t, id);
    case CaptureFail(x) => FindStatus(s.orders, x, Failed, id);
    case HookUpdate(x, t) => FindCompleted(s.orders, x, t, id);
    case DeniedUpdate(x) => FindStatus(s.orders, x, Denied, id);
    case RefundUpdate(o) => FindStatus(s.orders, o.id, Refunded, id);
    case _ =>
  }

  lemma {:induction false} NextKeepsSound(s: State, h: Handler)
    requires SoundTable(s.orders) && Informed(s.orders, h)
    ensures SoundTable(Next(s, h).0.orders)
  {
    hide Find, FindByTransaction, SetStatus, SetCompleted;
    match h
    case Insert(o) => FindNone(s.orders, o.id);
    case CaptureUpdate(o, t) => UpdatesKeepOrders(s.orders, o.id, Failed, t);
    case CaptureFail(x) => UpdatesKeepOrders(s.orders, x, Failed, None);
    case HookUpdate(x, t) => UpdatesKeepOrders(s.orders, x, Failed, t);
    case DeniedUpdate(x) => UpdatesKeepOrders(s.orders, x, Denied, None);
    case RefundUpdate(o) => UpdatesKeepOrders(s.orders, o.id, Refunded, None);
    case _ =>
  }

  lemma {:induction false} StillKnown(s: State, h: Handler, o: Order)
    requires Known(s.orders, o)
    ensures Known(Next(s, h).0.orders, o)
  {
    hide Next;
    FindNext(s, h, o.id);
  }

  lemma {:induction false} StillInformed(s: State, h: Handler, other: Handler)
    requires Informed(s.orders, other)
    ensures Informed(Next(s, h).0.orders, other)
  {
    hide Next, Known;
    match other
    case CaptureUpdate(o, _) => StillKnown(s, h, o);
    case CaptureCredit(o) => StillKnown(s, h, o);
    case HookCredit(o) => StillKnown(s, h, o);
    case RefundUpdate(o) => StillKnown(s, h, o);
    case RefundDeduct(o) => StillKnown(s, h, o);
    case _ =>
  }

  lemma {:induction false} RowsAreKnown(orders: seq<Order>, o: Order)
    requires SoundTable(orders) && o in orders
    ensures Known(orders, o)
  {
    FindUnique(orders, o);
  }

  lemma {:induction false} NextInformed(s: State, h: Handler)
    requires SoundTable(s.orders) && Informed(s.orders, h)
    ensures Informed(Next(s, h).0.orders, Next(s, h).1)
  {
    hide Find, FindByTransaction, SetStatus, SetCompleted, Known, SoundTable;
    match h
    case CaptureRead(id, _) =>
      var o := Find(s.orders, id);
      if o.Some? {
        RowsAreKnown(s.orders, o.value);
      }
    case CaptureUpdate(o, _) => StillKnown(s, h, o);
    case HookRead(id) =>
      var o := Find(s.orders, id);
      if o.Some? {
        RowsAreKnown(s.orders, o.value);
      }
    case RefundFind(capture) =>
      var o := FindByTransaction(s.orders, capture);
      if o.Some? {
        RowsAreKnown(s.orders, o.value);
      }
    case RefundUpdate(o) => StillKnown(s, h, o);
    case _ =>
  }

  lemma {:induction false} NextBacked(s: State, h: Handler)
    requires AllBacked(s) && Informed(s.orders, h)
    ensures AllBacked(Next(s, h).0)
  {
    hide Find, FindByTransaction, SetStatus, SetCompleted, AddTo;
    var t := Next(s, h).0;
    forall x: Entry | Backed(s.orders, x)
      ensures Backed(t.orders, x)
    {
      hide Next;
      FindNext(s, h, x.order);
    }
  }

  lemma {:induction false} NextAccounts(s: State, h: Handler, client: string)
    requires Accounts(s, client)
    ensures Accounts(Next(s, h).0, client)
  {
    hide Find, FindByTransaction, SetStatus, SetCompleted, Credit, Deduct, Balance, TotalFor;
    match h
    case CaptureCredit(o) => CreditAccounts(s, o, client);
    case HookCredit(o) => CreditAccounts(s, o, client);
    case RefundDeduct(o) => CreditAccounts(s, o, client);
    case _ =>
  }

  /** The tables are sound, and all handlers in flight carry rows of theirs. */
  ghost predicate Orderly(sys: System) {
    && SoundTable(sys.state.orders) && AllBacked(sys.state)
    && (forall i :: 0 <= i < |sys.handlers| ==> Informed(sys.state.orders, sys.handlers[i]))
  }

  lemma {:induction false} DoKeepsOrderly(sys: System, a: Action)
    requires Orderly(sys)
    ensures Orderly(Do(sys, a))
  {
    hide Next, SoundTable, AllBacked, Informed, Start;
    match a
    case Begin(e) => StartInformed(sys.state.orders, e);
    case Advance(i) =>
      if i < |sys.handlers| {
        var s, h := sys.state, sys.handlers[i];
        NextKeepsSound(s, h);
        NextBacked(s, h);
        NextInformed(s, h);
        forall j | 0 <= j < |sys.handlers|
          ensures Informed(Do(sys, a).state.orders, Do(sys, a).handlers[j])
        {
          StillInformed(s, h, sys.handlers[j]);
        }
      }
  }

  lemma {:induction false} StartInformed(orders: seq<Order>, e: Event)
    ensures Informed(orders, Start(e))
  {
  }

  lemma {:induction false} NothingRuns()
    ensures Orderly(System(Run([]), []))
  {
  }

  /**
   * Under every schedule, every change of a balance is for a stored order of that client, by its
   * amount, and the balance is the sum of these changes.
   */
  lemma {:induction false} EveryScheduleAccounts(actions: seq<Action>, client: string)
    ensures Orderly(Exec(actions)) && Accounts(Exec(actions).state, client)
  {
    hide Orderly, Accounts, Next, Start, Run;
    if actions == [] {
      NothingRuns();
      BalanceIsLog([], client);
    } else {
      var sys, a := Exec(actions[..|actions| - 1]), actions[|actions| - 1];
      EveryScheduleAccounts(actions[..|actions| - 1], client);
      DoKeepsOrderly(sys, a);
      if a.Advance? && a.i < |sys.handlers| {
        NextAccounts(sys.state, sys.handlers[a.i], client);
      }
    }
  }

  // ---------------------------------------------------------------- how often an order is credited

  /** Completed captures begun for the order, and completed-payment webhooks if `hooks`. */
  function Begun(actions: seq<Action>, id: string, hooks: bool): nat {
    if actions == [] then 0 else
    var a := actions[|actions| - 1];
    Begun(actions[..|actions| - 1], id, hooks)
    + (if a.Begin? && (CompletedCapture(a.event, id) || (hooks && CompletedHook(a.event, id))) then 1 else 0)
  }

  /** Whether the handler may yet credit the order; webhooks matter if `hooks`. */
  function MayCredit(h: Handler, id: string, hooks: bool): nat {
    var of := match h
      case CaptureRead(x, _) => x == id
      case CaptureUpdate(o, _) => o.id == id
      case CaptureCredit(o) => o.id == id
      case HookUpdate(x, _) => hooks && x == id
      case HookRead(x) => hooks && x == id
      case HookCredit(o) => hooks && o.id == id
      case _ => false;
    if of then 1 else 0
  }

  function InFlight(handlers: seq<Handler>, id: string, hooks: bool): nat {
    if handlers == [] then 0
    else InFlight(handlers[..|handlers| - 1], id, hooks) + MayCredit(handlers[|handlers| - 1], id, hooks)
  }

  lemma {:induction false} InFlightBegun(handlers: seq<Handler>, e: Event, id: string, hooks: bool)
    ensures InFlight(handlers + [Start(e)], id, hooks)
            == InFlight(handlers, id, hooks)
               + (if CompletedCapture(e, id) || (hooks && CompletedHook(e, id)) then 1 else 0)
  {
    assert (handlers + [Start(e)])[..|handlers|] == handlers;
  }

  lemma {:induction false} InFlightAdvanced(handlers: seq<Handler>, i: nat, h: Handler, id: string, hooks: bool)
    requires i < |handlers|
    ensures InFlight(handlers[i := h], id, hooks) + MayCredit(handlers[i], id, hooks)
            == InFlight(handlers, id, hooks) + MayCredit(h, id, hooks)
  {
    hide MayCredit;
    var n := |handlers| - 1;
    if i == n {
      assert handlers[i := h][..n] == handlers[..n];
    } else {
      InFlightAdvanced(handlers[..n], i, h, id, hooks);
      assert handlers[i := h][..n] == handlers[..n][i := h];
    }
  }

  /** A call that credits the order is the last one that could have. */
  lemma {:induction false} NextCredits(s: State, h: Handler, id: string, hooks: bool)
    requires hooks || !(h.HookCredit? && h.order.id == id)
    ensures var (t, h') := Next(s, h);
            EntriesFor(t.credits, id) + MayCredit(h', id, hooks)
            <= EntriesFor(s.credits, id) + MayCredit(h, id, hooks)
  {
    hide Find, FindByTransaction, SetStatus, SetCompleted, AddTo, EntriesFor;
    if h.CaptureCredit? || h.HookCredit? {
      var o := h.order;
      if Present(o.client) {
        EntryAdded(s.credits, Entry(o.client.value, o.amount, o.id), id, "");
      }
    }
  }

  /** No webhook is on its way to a credit of the order. */
  ghost predicate Calm(orders: seq<Order>, h: Handler, id: string) {
    var o := Find(orders, id);
    && (h.HookUpdate? && h.id == id ==> o.Some?)
    && (h.HookRead? && h.id == id ==> o.Some? && o.value.status == Completed)
    && !(h.HookCredit? && h.order.id == id)
  }

  ghost predicate AllCalm(sys: System, id: string) {
    forall i :: 0 <= i < |sys.handlers| ==> Calm(sys.state.orders, sys.handlers[i], id)
  }

  /** Credits made and still to come are no more than what was begun. */
  ghost predicate Bounded(sys: System, id: string, hooks: bool, begun: nat) {
    EntriesFor(sys.state.credits, id) + InFlight(sys.handlers, id, hooks) <= begun
  }

  lemma {:induction false} DoBounded(sys: System, a: Action, id: string, hooks: bool, begun: nat)
    requires Bounded(sys, id, hooks, begun)
    requires hooks || AllCalm(sys, id)
    ensures Bounded(Do(sys, a), id, hooks,
                    begun + (if a.Begin? && (CompletedCapture(a.event, id)
                                             || (hooks && CompletedHook(a.event, id))) then 1 else 0))
  {
    hide Next, Start, InFlight, MayCredit, EntriesFor, CompletedCapture, CompletedHook;
    match a
    case Begin(e) => InFlightBegun(sys.handlers, e, id, hooks);
    case Advance(i) =>
      if i < |sys.handlers| {
        NextCredits(sys.state, sys.handlers[i], id, hooks);
        InFlightAdvanced(sys.handlers, i, Next(sys.state, sys.handlers[i]).1, id, hooks);
      }
  }

  lemma {:induction false} NothingInFlight(id: string, hooks: bool)
    ensures Bounded(System(Run([]), []), id, hooks, 0) && AllCalm(System(Run([]), []), id)
  {
  }

  lemma {:induction false} RunKeepsBounded(actions: seq<Action>, id: string)
    ensures Bounded(Exec(actions), id, true, Begun(actions, id, true))
  {
    hide Do, Run, Bounded, CompletedCapture, CompletedHook;
    if actions == [] {
      NothingInFlight(id, true);
    } else {
      var front, a := actions[..|actions| - 1], actions[|actions| - 1];
      RunKeepsBounded(front, id);
      DoBounded(Exec(front), a, id, true, Begun(front, id, true));
    }
  }

  lemma {:induction false} BoundedCredits(sys: System, id: string, hooks: bool, begun: nat)
    requires Bounded(sys, id, hooks, begun)
    ensures EntriesFor(sys.state.credits, id) <= begun
  {
  }

  /**
   * Under every schedule an order is credited at most once for each completed capture and each
   * completed-payment webhook that was begun for it.
   */
  lemma {:induction false} EveryScheduleBounded(actions: seq<Action>, id: string)
    ensures EntriesFor(Exec(actions).state.credits, id) <= Begun(actions, id, true)
  {
    hide Exec, Bounded, Begun;
    RunKeepsBounded(actions, id);
    BoundedCredits(Exec(actions), id, true, Begun(actions, id, true));
  }

  // ---------------------------------------------------------------- when webhooks credit nothing

  /** The webhook of a stored order starts, or the call writes no other status than COMPLETED to it. */
  predicate QuietAction(sys: System, a: Action, id: string) {
    match a
    case Begin(e) => CompletedHook(e, id) ==> Find(sys.state.orders, id).Some?
    case Advance(i) => i < |sys.handlers| ==> !Demotes(sys.handlers[i], id)
  }

  /** So is every action of the schedule where it happens. */
  predicate Quiet(actions: seq<Action>, id: string) {
    actions == []
    || (Quiet(actions[..|actions| - 1], id)
        && QuietAction(Exec(actions[..|actions| - 1]), actions[|actions| - 1], id))
  }

  lemma {:induction false} NextCalm(s: State, h: Handler, other: Handler, id: string)
    requires !Demotes(h, id) && Calm(s.orders, h, id) && Calm(s.orders, other, id)
    ensures Calm(Next(s, h).0.orders, Next(s, h).1, id) && Calm(Next(s, h).0.orders, other, id)
  {
    FindNext(s, h, id);
    hide Find, FindByTransaction, SetStatus, SetCompleted, Credit, Deduct;
  }

  lemma {:induction false} StartCalm(orders: seq<Order>, e: Event, id: string)
    requires CompletedHook(e, id) ==> Find(orders, id).Some?
    ensures Calm(orders, Start(e), id)
  {
    hide Find;
  }

  lemma {:induction false} DoCalm(sys: System, a: Action, id: string)
    requires QuietAction(sys, a, id)
    requires AllCalm(sys, id)
    ensures AllCalm(Do(sys, a), id)
  {
    hide Next, Calm, Find, Start, CompletedHook, Demotes;
    var t := Do(sys, a);
    match a
    case Begin(e) => StartCalm(sys.state.orders, e, id);
    case Advance(i) =>
      if i < |sys.handlers| {
        forall j | 0 <= j < |t.handlers|
          ensures Calm(t.state.orders, t.handlers[j], id)
        {
          NextCalm(sys.state, sys.handlers[i], sys.handlers[j], id);
        }
      }
  }

  lemma {:induction false} QuietKeepsBounded(actions: seq<Action>, id: string)
    requires Quiet(actions, id)
    ensures Bounded(Exec(actions), id, false, Begun(actions, id, false))
    ensures AllCalm(Exec(actions), id)
  {
    hide Do, Run, Bounded, AllCalm, CompletedCapture, CompletedHook, QuietAction;
    if actions == [] {
      NothingInFlight(id, false);
    } else {
      var front, a := actions[..|actions| - 1], actions[|actions| - 1];
      QuietKeepsBounded(front, id);
      DoCalm(Exec(front), a, id);
      DoBounded(Exec(front), a, id, false, Begun(front, id, false));
    }
  }

  /**
   * If the webhooks of an order start once it is stored, and no call writes FAILED, DENIED or
   * REFUNDED to it, then under every schedule completed captures alone credit it.
   */
  lemma {:induction false} QuietSchedulesCreditCaptures(actions: seq<Action>, id: string)
    requires Quiet(actions, id)
    ensures EntriesFor(Exec(actions).state.credits, id) <= Begun(actions, id, false)
  {
    hide Exec, Quiet, Bounded, Begun;
    QuietKeepsBounded(actions, id);
    BoundedCredits(Exec(actions), id, false, Begun(actions, id, false));
  }
}
