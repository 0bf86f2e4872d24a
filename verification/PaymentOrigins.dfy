/**
 * Which events let an order be credited more often than its captures complete: where the rows of
 * the order table and the handlers in flight come from, and the schedules in which a completed
 * webhook credits after all.
 */
module PaymentOrigins {
  import opened Options
  import opened PaymentLedger
  import opened PaymentSteps

  // ---------------------------------------------------------------- events that are ever sent

  /** The schedule starts handlers for these events only, as often as it likes. */
  ghost predicate Among(actions: seq<Action>, events: set<Event>) {
    forall i :: 0 <= i < |actions| && actions[i].Begin? ==> actions[i].event in events
  }

  /** A completed webhook for the order starts only once the order is stored. */
  predicate HooksFollow(actions: seq<Action>, id: string) {
    actions == []
    || (var front, a := actions[..|actions| - 1], actions[|actions| - 1];
        && HooksFollow(front, id)
        && (a.Begin? && CompletedHook(a.event, id) ==> Find(Exec(front).state.orders, id).Some?))
  }

  predicate Creation(e: Event, id: string) {
    e.CreateOrder? && e.id == id && e.amount > 0 && Present(e.client)
  }

  /** Some event makes the transaction of the order `t`. */
  ghost predicate Written(events: set<Event>, id: string, t: Option<string>) {
    exists p :: p in events && (|| (CompletedHook(p, id) && p.capture == t)
                                || (CompletedCapture(p, id) && p.result.transaction == t))
  }

  /** The event can write another status than COMPLETED to the order. */
  ghost predicate Reopener(events: set<Event>, e: Event, id: string) {
    || FailedCapture(e, id)
    || Denial(e, id)
    || (e.RefundedWebhook? && e.capture.Some? && Written(events, id, e.capture))
  }

  ghost predicate HookSent(events: set<Event>, id: string) {
    exists e :: e in events && CompletedHook(e, id)
  }

  ghost predicate CreationSent(events: set<Event>, id: string) {
    exists e :: e in events && Creation(e, id)
  }

  ghost predicate ReopenerSent(events: set<Event>, id: string) {
    exists e :: e in events && Reopener(events, e, id)
  }

  // ---------------------------------------------------------------- where rows and handlers come from

  ghost predicate RowSent(events: set<Event>, o: Order) {
    && CreateOrder(o.id, o.client, o.amount) in events
    && (o.transaction.Some? ==> Written(events, o.id, o.transaction))
  }

  ghost predicate RowsSent(events: set<Event>, orders: seq<Order>) {
    forall i :: 0 <= i < |orders| ==> RowSent(events, orders[i])
  }

  ghost predicate RefundSent(events: set<Event>, id: string) {
    exists t: string :: RefundedWebhook(Some(t)) in events && Written(events, id, Some(t))
  }

  ghost predicate Sent(events: set<Event>, h: Handler) {
    match h
    case Insert(o) => CreateOrder(o.id, o.client, o.amount) in events && o.transaction == None
    case CaptureRead(id, t) => Capture(id, Reported(true, t)) in events
    case CaptureUpdate(o, t) => Capture(o.id, Reported(true, t)) in events
    case CaptureFail(id) => exists t :: Capture(id, Reported(false, t)) in events
    case HookUpdate(id, t) => id != "" && CompletedWebhook(Some(id), t) in events
    case DeniedUpdate(id) => id != "" && DeniedWebhook(Some(id)) in events
    case RefundFind(t) => RefundedWebhook(t) in events
    case RefundUpdate(o) => RefundSent(events, o.id)
    case _ => true
  }

  lemma {:induction false} StartSent(events: set<Event>, e: Event)
    requires e in events
    ensures Sent(events, Start(e))
  {
    hide RefundSent;
    match e
    case CompletedWebhook(order, capture) =>
      if Present(order) {
        assert order == Some(order.value);
      }
    case DeniedWebhook(order) =>
      if Present(order) {
        assert order == Some(order.value);
      }
    case _ =>
  }

  lemma {:induction false} CompletedRowsSent(events: set<Event>, orders: seq<Order>, id: string, t: Option<string>)
    requires RowsSent(events, orders) && Written(events, id, t)
    ensures RowsSent(events, SetCompleted(orders, id, t))
  {
    hide Written;
    var u := SetCompleted(orders, id, t);
    forall i | 0 <= i < |u|
      ensures RowSent(events, u[i])
    {
      assert RowSent(events, orders[i]);
    }
  }

  lemma {:induction false} StatusRowsSent(events: set<Event>, orders: seq<Order>, id: string, status: Status)
    requires RowsSent(events, orders)
    ensures RowsSent(events, SetStatus(orders, id, status))
  {
    hide Written;
    var u := SetStatus(orders, id, status);
    forall i | 0 <= i < |u|
      ensures RowSent(events, u[i])
    {
      assert RowSent(events, orders[i]);
    }
  }

  lemma {:induction false} CaptureWrites(events: set<Event>, id: string, t: Option<string>)
    ensures Capture(id, Reported(true, t)) in events ==> Written(events, id, t)
    ensures id != "" && CompletedWebhook(Some(id), t) in events ==> Written(events, id, t)
  {
    assert CompletedCapture(Capture(id, Reported(true, t)), id);
    assert id != "" ==> CompletedHook(CompletedWebhook(Some(id), t), id);
  }

  lemma {:induction false} NextRowsSent(events: set<Event>, s: State, h: Handler)
    requires RowsSent(events, s.orders) && Sent(events, h)
    ensures RowsSent(events, Next(s, h).0.orders)
  {
    hide Find, FindByTransaction, SetStatus, SetCompleted, RowsSent, Written, RefundSent;
    match h
    case Insert(o) => AppendedRowSent(events, s.orders, o);
    case CaptureUpdate(o, t) =>
      CaptureWrites(events, o.id, t);
      CompletedRowsSent(events, s.orders, o.id, t);
    case CaptureFail(id) => StatusRowsSent(events, s.orders, id, Failed);
    case HookUpdate(id, t) =>
      CaptureWrites(events, id, t);
      CompletedRowsSent(events, s.orders, id, t);
    case DeniedUpdate(id) => StatusRowsSent(events, s.orders, id, Denied);
    case RefundUpdate(o) => StatusRowsSent(events, s.orders, o.id, Refunded);
    case _ =>
  }

  lemma {:induction false} AppendedRowSent(events: set<Event>, orders: seq<Order>, o: Order)
    requires RowsSent(events, orders) && Sent(events, Insert(o))
    ensures RowsSent(events, orders + [o])
  {
    hide Written;
  }

  lemma {:induction false} NextSent(events: set<Event>, s: State, h: Handler)
    requires RowsSent(events, s.orders) && Sent(events, h)
    ensures Sent(events, Next(s, h).1)
  {
    hide Find, FindByTransaction, SetStatus, SetCompleted, Written;
    if h.RefundFind? {
      var o := FindByTransaction(s.orders, h.capture);
      if o.Some? {
        var i :| 0 <= i < |s.orders| && s.orders[i] == o.value;
        assert RowSent(events, s.orders[i]);
        assert h.capture == Some(h.capture.value);
      }
    }
  }

  ghost predicate AllSent(events: set<Event>, sys: System) {
    && RowsSent(events, sys.state.orders)
    && forall i :: 0 <= i < |sys.handlers| ==> Sent(events, sys.handlers[i])
  }

  lemma {:induction false} NothingSent(events: set<Event>)
    ensures AllSent(events, System(Run([]), []))
  {
  }

  lemma {:induction false} DoSent(events: set<Event>, sys: System, a: Action)
    requires AllSent(events, sys) && (a.Begin? ==> a.event in events)
    ensures AllSent(events, Do(sys, a))
  {
    hide Next, Start, Sent, RowsSent;
    match a
    case Begin(e) => StartSent(events, e);
    case Advance(i) =>
      if i < |sys.handlers| {
        NextRowsSent(events, sys.state, sys.handlers[i]);
        NextSent(events, sys.state, sys.handlers[i]);
      }
  }

  /** Under every schedule, rows and handlers are what the events make of them. */
  lemma {:induction false} EverythingIsSent(events: set<Event>, actions: seq<Action>)
    requires Among(actions, events)
    ensures AllSent(events, Exec(actions))
  {
    hide Do, Run, AllSent;
    if actions == [] {
      NothingSent(events);
    } else {
      EverythingIsSent(events, actions[..|actions| - 1]);
      DoSent(events, Exec(actions[..|actions| - 1]), actions[|actions| - 1]);
    }
  }

  // ---------------------------------------------------------------- what keeps the bound

  /** Without completed webhooks the bound is that of all schedules. */
  lemma {:induction false} NoHookBegun(events: set<Event>, actions: seq<Action>, id: string)
    requires Among(actions, events) && !HookSent(events, id)
    ensures Begun(actions, id, true) == Begun(actions, id, false)
  {
    hide CompletedCapture, CompletedHook;
    if actions != [] {
      NoHookBegun(events, actions[..|actions| - 1], id);
    }
  }

  /** An order that is credited was created for a client. */
  lemma {:induction false} CreditNeedsCreation(events: set<Event>, actions: seq<Action>, id: string)
    requires Among(actions, events)
    ensures EntriesFor(Exec(actions).state.credits, id) > 0 ==> CreationSent(events, id)
  {
    hide Exec, EntriesFor, Sent, Written;
    var s := Exec(actions).state;
    EverythingIsSent(events, actions);
    EveryScheduleAccounts(actions, "");
    NamedWhen(s.credits, id);
    if EntriesFor(s.credits, id) > 0 {
      var k :| 0 <= k < |s.credits| && s.credits[k].order == id;
      assert Backed(s.orders, s.credits[k]);
      var o := Find(s.orders, id).value;
      var i :| 0 <= i < |s.orders| && s.orders[i] == o;
      assert RowSent(events, s.orders[i]);
      assert Creation(CreateOrder(o.id, o.client, o.amount), id);
    }
  }

  /** Without a reopener no call demotes the order. */
  lemma {:induction false} DemotionIsSent(events: set<Event>, h: Handler, id: string)
    requires Sent(events, h) && Demotes(h, id)
    ensures ReopenerSent(events, id)
  {
    hide Written;
    match h
    case CaptureFail(_) =>
      var t :| Capture(id, Reported(false, t)) in events;
      assert Reopener(events, Capture(id, Reported(false, t)), id);
    case DeniedUpdate(_) =>
      assert Reopener(events, DeniedWebhook(Some(id)), id);
    case RefundUpdate(_) =>
      var t :| RefundedWebhook(Some(t)) in events && Written(events, id, Some(t));
      assert Reopener(events, RefundedWebhook(Some(t)), id);
  }

  lemma {:induction false} NoReopenerIsQuiet(events: set<Event>, actions: seq<Action>, id: string)
    requires Among(actions, events) && HooksFollow(actions, id) && !ReopenerSent(events, id)
    ensures Quiet(actions, id)
  {
    hide Exec, Sent, Demotes, CompletedHook, Find, ReopenerSent, RowsSent;
    if actions != [] {
      var front, a := actions[..|actions| - 1], actions[|actions| - 1];
      NoReopenerIsQuiet(events, front, id);
      EverythingIsSent(events, front);
      var sys := Exec(front);
      if a.Advance? && a.i < |sys.handlers| && Demotes(sys.handlers[a.i], id) {
        DemotionIsSent(events, sys.handlers[a.i], id);
      }
    }
  }

  /** The completed captures begun for an order bound its credits. */
  ghost predicate CapturesBound(actions: seq<Action>, id: string) {
    EntriesFor(Exec(actions).state.credits, id) <= Begun(actions, id, false)
  }

  lemma {:induction false} BoundKept(events: set<Event>, actions: seq<Action>, id: string)
    requires Among(actions, events) && HooksFollow(actions, id)
    requires !(HookSent(events, id) && CreationSent(events, id) && ReopenerSent(events, id))
    ensures CapturesBound(actions, id)
  {
    hide Exec, Begun, EntriesFor, Among, HooksFollow, HookSent, CreationSent, ReopenerSent;
    if !HookSent(events, id) {
      NoHookBegun(events, actions, id);
      EveryScheduleBounded(actions, id);
    } else if !CreationSent(events, id) {
      CreditNeedsCreation(events, actions, id);
    } else {
      NoReopenerIsQuiet(events, actions, id);
      QuietSchedulesCreditCaptures(actions, id);
    }
  }

  // ---------------------------------------------------------------- what breaks it

  /** A schedule of these events that starts webhooks late enough, and how many captures it begins. */
  ghost predicate Fair(actions: seq<Action>, events: set<Event>, id: string, captures: nat) {
    Among(actions, events) && HooksFollow(actions, id) && Begun(actions, id, false) == captures
  }

  lemma {:induction false} FairMore(actions: seq<Action>, events: set<Event>, id: string, captures: nat, a: Action)
    requires Fair(actions, events, id, captures)
    requires a.Begin? ==> a.event in events
                          && (CompletedHook(a.event, id) ==> Find(Exec(actions).state.orders, id).Some?)
    ensures Fair(actions + [a], events, id,
                 captures + (if a.Begin? && CompletedCapture(a.event, id) then 1 else 0))
  {
    hide Exec, Find, CompletedHook, CompletedCapture;
    assert (actions + [a])[..|actions|] == actions;
  }

  lemma {:induction false} FairUninterrupted(
    actions: seq<Action>, events: set<Event>, id: string, captures: nat, n: nat, e: Event)
    requires Fair(actions, events, id, captures) && e in events && !CompletedHook(e, id)
    ensures Fair(actions + Uninterrupted(n, e), events, id,
                 captures + (if CompletedCapture(e, id) then 1 else 0))
  {
    hide Fair, CompletedCapture;
    var a1 := actions + [Begin(e)];
    var c := captures + (if CompletedCapture(e, id) then 1 else 0);
    FairMore(actions, events, id, captures, Begin(e));
    FairMore(a1, events, id, c, Advance(n));
    FairMore(a1 + [Advance(n)], events, id, c, Advance(n));
    FairMore(a1 + [Advance(n)] + [Advance(n)], events, id, c, Advance(n));
    assert a1 + [Advance(n)] + [Advance(n)] + [Advance(n)] == actions + Uninterrupted(n, e);
  }

  lemma {:induction false} FairInTurn(
    actions: seq<Action>, events: set<Event>, id: string, captures: nat, n: nat, es: seq<Event>)
    requires Fair(actions, events, id, captures)
    requires forall i :: 0 <= i < |es| ==> es[i] in events && !CompletedHook(es[i], id)
    ensures Fair(actions + InTurn(n, es), events, id, captures + CompletedCaptures(es, id))
  {
    hide Fair, CompletedHook, CompletedCapture, Uninterrupted;
    if es == [] {
      assert actions + [] == actions;
    } else {
      var m := |es| - 1;
      FairInTurn(actions, events, id, captures, n, es[..m]);
      FairUninterrupted(actions + InTurn(n, es[..m]), events, id,
                        captures + CompletedCaptures(es[..m], id), n + m, es[m]);
      assert actions + InTurn(n, es) == actions + InTurn(n, es[..m]) + Uninterrupted(n + m, es[m]);
    }
  }

  lemma {:induction false} FairInterrupted(
    actions: seq<Action>, events: set<Event>, id: string, captures: nat, n: nat, hook: Event, es: seq<Event>)
    requires Fair(actions, events, id, captures) && Find(Exec(actions).state.orders, id).Some?
    requires hook in events && hook.CompletedWebhook?
    requires forall i :: 0 <= i < |es| ==> es[i] in events && !CompletedHook(es[i], id)
    ensures Fair(actions + Interrupted(n, hook, es), events, id, captures + CompletedCaptures(es, id))
  {
    hide Fair, CompletedHook, InTurn, Exec, Find, CompletedCaptures;
    var a1 := actions + [Begin(hook)];
    var a2 := a1 + [Advance(n)];
    var a3 := a2 + InTurn(n + 1, es);
    var c := captures + CompletedCaptures(es, id);
    FairMore(actions, events, id, captures, Begin(hook));
    FairMore(a1, events, id, captures, Advance(n));
    FairInTurn(a2, events, id, captures, n + 1, es);
    FairMore(a3, events, id, c, Advance(n));
    FairMore(a3 + [Advance(n)], events, id, c, Advance(n));
    assert a3 + [Advance(n)] + [Advance(n)] == actions + Interrupted(n, hook, es);
  }

  /** The order is created; its webhook is interrupted by whole runs of other handlers. */
  function Reopened(create: Event, hook: Event, es: seq<Event>): seq<Action> {
    Uninterrupted(0, create) + Interrupted(1, hook, es)
  }

  /** The table has the one row, completed with transaction `t`. */
  ghost predicate OnlyCompleted(s: State, o: Order, t: Option<string>) {
    s.orders == [o.(status := Completed, transaction := t)]
  }

  lemma {:induction false} ReopenedRuns(o: Order, hook: Event, es: seq<Event>, events: set<Event>)
    requires Creation(CreateOrder(o.id, o.client, o.amount), o.id)
    requires CompletedHook(hook, o.id) && hook in events
    requires CreateOrder(o.id, o.client, o.amount) in events
    requires forall i :: 0 <= i < |es| ==> es[i] in events && !CompletedHook(es[i], o.id)
    ensures var actions := Reopened(CreateOrder(o.id, o.client, o.amount), hook, es);
            var marked := MarkCompleted(Step(Run([]), CreateOrder(o.id, o.client, o.amount)), o.id, hook.capture);
            && Fair(actions, events, o.id, CompletedCaptures(es, o.id))
            && Exec(actions).state == CreditUnlessCompleted(StepAll(marked, es), o.id)
            && OnlyCompleted(marked, o, hook.capture) && marked.credits == marked.debits == []
  {
    hide Exec, Fair, StepAll, Interrupted, CreditUnlessCompleted, CompletedCaptures, Uninterrupted;
    var create := CreateOrder(o.id, o.client, o.amount);
    var a1 := Uninterrupted(0, create);
    NothingDone(events, o.id);
    assert [] + a1 == a1;
    UninterruptedIsStep([], create);
    FairUninterrupted([], events, o.id, 0, 0, create);
    FreshOrder(o);
    assert hook == CompletedWebhook(Some(o.id), hook.capture);
    InterruptedIsHalves(a1, o.id, hook.capture, es);
    FairInterrupted(a1, events, o.id, 0, 1, hook, es);
  }

  lemma {:induction false} NothingDone(events: set<Event>, id: string)
    ensures Exec([]) == System(Run([]), []) && Fair([], events, id, 0)
  {
  }

  lemma {:induction false} FreshOrder(o: Order)
    requires o.amount > 0
    ensures var s := Step(Run([]), CreateOrder(o.id, o.client, o.amount));
            var row := o.(status := Pending, transaction := None);
            && s.orders == [row] && s.credits == s.debits == [] && Find(s.orders, o.id) == Some(row)
            && forall t :: SetCompleted(s.orders, o.id, t) == [o.(status := Completed, transaction := t)]
  {
  }

  lemma {:induction false} OnlyRow(o: Order)
    ensures Find([o], o.id) == Some(o) && UniqueIds([o])
    ensures o.transaction.Some? ==> FindByTransaction([o], o.transaction) == Some(o)
    ensures forall t :: SetCompleted([o], o.id, t) == [o.(status := Completed, transaction := t)]
  {
  }

  /** Reopening an order credits nothing by itself. */
  lemma {:induction false} CreditsKept(s: State, e: Event, id: string)
    requires UniqueIds(s.orders) && Reopens(s, e, id)
    ensures EntriesFor(Step(s, e).credits, id) == EntriesFor(s.credits, id)
  {
    hide Step, EntriesFor;
    EntriesAfter(s, e, id);
  }

  /** A completed order that is reopened gets one more credit from the waiting webhook. */
  lemma {:induction false} ReopenedCredits(s: State, o: Order, t: Option<string>, e: Event)
    requires OnlyCompleted(s, o, t) && Present(o.client)
    requires Reopens(s, e, o.id)
    ensures EntriesFor(CreditUnlessCompleted(Step(s, e), o.id).credits, o.id)
            == EntriesFor(s.credits, o.id) + 1
  {
    hide Step, EntriesFor, Reopens, Find;
    var u := Step(s, e);
    OnlyRow(o.(status := Completed, transaction := t));
    FindAfter(s, e, o.id);
    CreditsKept(s, e, o.id);
    var read := Find(u.orders, o.id).value;
    assert CreditUnlessCompleted(u, o.id) == Credit(u, read);
    EntryAdded(u.credits, Entry(o.client.value, read.amount, o.id), o.id, "");
  }

  lemma {:induction false} OneStep(s: State, e: Event)
    ensures StepAll(s, [e]) == Step(s, e)
  {
    hide Step;
    assert [e][..0] == [];
    assert StepAll(s, []) == s;
  }

  /** One reopening event between the webhook's update and its read: a credit without a capture. */
  lemma {:induction false} OneReopener(events: set<Event>, o: Order, hook: Event, e: Event)
    requires Creation(CreateOrder(o.id, o.client, o.amount), o.id)
    requires CreateOrder(o.id, o.client, o.amount) in events && CompletedHook(hook, o.id) && hook in events
    requires e in events && Reopener(events, e, o.id)
    requires e.RefundedWebhook? ==> e.capture == hook.capture
    ensures exists actions :: Among(actions, events) && HooksFollow(actions, o.id) && !CapturesBound(actions, o.id)
  {
    hide Exec, Step, StepAll, Reopened, EntriesFor, CreditUnlessCompleted, Among, HooksFollow, Begun;
    var create := CreateOrder(o.id, o.client, o.amount);
    var actions := Reopened(create, hook, [e]);
    var marked := MarkCompleted(Step(Run([]), create), o.id, hook.capture);
    ReopenedRuns(o, hook, [e], events);
    OneStep(marked, e);
    OnlyRow(o.(status := Completed, transaction := hook.capture));
    ReopenedCredits(marked, o, hook.capture, e);
    NoCaptures(e, o.id);
    NoEntries(o.id);
    assert !CapturesBound(actions, o.id);
  }

  lemma {:induction false} NoCaptures(e: Event, id: string)
    requires !CompletedCapture(e, id)
    ensures CompletedCaptures([e], id) == 0
  {
    assert [e][..0] == [];
  }

  lemma {:induction false} OneCapture(p: Event, e: Event, id: string)
    requires CompletedCapture(p, id) && !CompletedCapture(e, id)
    ensures CompletedCaptures([p, e], id) == 1
  {
    assert [p, e][..1] == [p] && [p][..0] == [];
    assert CompletedCaptures([p], id) == 1;
  }

  /** A capture and the refund of its transaction in between: two credits for one capture. */
  lemma {:induction false} CaptureThenRefund(events: set<Event>, o: Order, hook: Event, p: Event, e: Event)
    requires Creation(CreateOrder(o.id, o.client, o.amount), o.id)
    requires CreateOrder(o.id, o.client, o.amount) in events && CompletedHook(hook, o.id) && hook in events
    requires p in events && CompletedCapture(p, o.id)
    requires e in events && e.RefundedWebhook? && e.capture.Some? && p.result.transaction == e.capture
    ensures exists actions :: Among(actions, events) && HooksFollow(actions, o.id) && !CapturesBound(actions, o.id)
  {
    hide Exec, Step, StepAll, Reopened, EntriesFor, CreditUnlessCompleted, Among, HooksFollow, Begun;
    var create, t := CreateOrder(o.id, o.client, o.amount), e.capture;
    var actions := Reopened(create, hook, [p, e]);
    var marked := MarkCompleted(Step(Run([]), create), o.id, hook.capture);
    var paid := Step(marked, p);
    ReopenedRuns(o, hook, [p, e], events);
    TwoSteps(marked, p, e);
    CapturedAgain(marked, o, hook.capture, p);
    OnlyRow(o.(status := Completed, transaction := t));
    ReopenedCredits(paid, o, t, e);
    OneCapture(p, e, o.id);
    NoEntries(o.id);
    assert !CapturesBound(actions, o.id);
  }

  lemma {:induction false} TwoSteps(s: State, p: Event, e: Event)
    ensures StepAll(s, [p, e]) == Step(Step(s, p), e)
  {
    hide Step;
    assert [p, e][..1] == [p];
    OneStep(s, p);
  }

  lemma {:induction false} CapturedAgain(s: State, o: Order, t: Option<string>, p: Event)
    requires OnlyCompleted(s, o, t) && Present(o.client) && CompletedCapture(p, o.id)
    ensures OnlyCompleted(Step(s, p), o, p.result.transaction)
    ensures EntriesFor(Step(s, p).credits, o.id) == EntriesFor(s.credits, o.id) + 1
  {
    hide EntriesFor, SetCompleted, Find, AddTo;
    OnlyRow(o.(status := Completed, transaction := t));
    EntriesAfter(s, p, o.id);
  }

  /** The same with a denial, and what it comes to: the client is credited twice for one capture. */
  lemma {:induction false} CreditedTwice(id: string, client: string, amount: int, t: Option<string>)
    requires id != "" && client != "" && amount > 0
    ensures var paid, denied := Capture(id, Reported(true, t)), DeniedWebhook(Some(id));
            var create, hook := CreateOrder(id, Some(client), amount), CompletedWebhook(Some(id), t);
            var actions := Reopened(create, hook, [paid, denied]);
            && Begun(actions, id, false) == 1
            && Exec(actions).state.credits == [Entry(client, amount, id), Entry(client, amount, id)]
            && Balance(Exec(actions).state.balances, client) == 2 * amount
  {
    hide Exec, Step, StepAll, Reopened, CreditUnlessCompleted, Begun, Balance;
    var o := Order(id, Some(client), amount, Pending, None);
    var create, hook := CreateOrder(id, Some(client), amount), CompletedWebhook(Some(id), t);
    var paid, denied := Capture(id, Reported(true, t)), DeniedWebhook(Some(id));
    var marked := MarkCompleted(Step(Run([]), create), id, t);
    ReopenedRuns(o, hook, [paid, denied], {create, hook, paid, denied});
    TwoSteps(marked, paid, denied);
    OneCapture(paid, denied, id);
    PaidThenDenied(marked, o, t);
    EveryScheduleAccounts(Reopened(create, hook, [paid, denied]), client);
    TwoEntries(Entry(client, amount, id));
  }

  lemma {:induction false} PaidThenDenied(s: State, o: Order, t: Option<string>)
    requires OnlyCompleted(s, o, t) && s.credits == s.debits == [] && o.id != "" && Present(o.client)
    ensures var x := Entry(o.client.value, o.amount, o.id);
            var u := CreditUnlessCompleted(
                       Step(Step(s, Capture(o.id, Reported(true, t))), DeniedWebhook(Some(o.id))), o.id);
            u.credits == [x, x] && u.debits == []
  {
    hide SetStatus, SetCompleted, AddTo, Find;
    var row := o.(status := Completed, transaction := t);
    OnlyRow(row);
    var p := Step(s, Capture(o.id, Reported(true, t)));
    assert p.orders == [row] && p.credits == [Entry(o.client.value, o.amount, o.id)];
    FindStatus([row], o.id, Denied, o.id);
    var d := Step(p, DeniedWebhook(Some(o.id)));
    assert CreditUnlessCompleted(d, o.id) == Credit(d, row.(status := Denied));
  }

  lemma {:induction false} TwoEntries(x: Entry)
    ensures TotalFor([x, x], x.client) == 2 * x.amount && TotalFor([], x.client) == 0
  {
    assert [x, x][..1] == [x] && [x][..0] == [];
    assert TotalFor([x], x.client) == x.amount;
  }

  lemma {:induction false} BoundBroken(events: set<Event>, id: string)
    requires HookSent(events, id) && CreationSent(events, id) && ReopenerSent(events, id)
    ensures exists actions :: Among(actions, events) && HooksFollow(actions, id) && !CapturesBound(actions, id)
  {
    hide Among, HooksFollow, CapturesBound;
    var hook :| hook in events && CompletedHook(hook, id);
    var create :| create in events && Creation(create, id);
    var e :| e in events && Reopener(events, e, id);
    var o := Order(id, create.client, create.amount, Pending, None);
    assert create == CreateOrder(o.id, o.client, o.amount);
    if e.RefundedWebhook? {
      var p :| p in events && (|| (CompletedHook(p, id) && p.capture == e.capture)
                               || (CompletedCapture(p, id) && p.result.transaction == e.capture));
      if CompletedHook(p, id) && p.capture == e.capture {
        OneReopener(events, o, p, e);
      } else {
        CaptureThenRefund(events, o, hook, p, e);
      }
    } else {
      OneReopener(events, o, hook, e);
    }
  }

  /**
   * Main theorem.  Let handlers run for a given set of events, each any number of times, the
   * completed webhooks of an order once it is stored.  In all interleavings its credits are bounded
   * by the completed captures exactly if no completed webhook is among the events, or no creation of
   * the order for a client, or none that reopens it.
   */
  lemma {:induction false} CapturesBoundCreditsWhen(events: set<Event>, id: string)
    ensures (forall actions :: Among(actions, events) && HooksFollow(actions, id) ==>
               EntriesFor(Exec(actions).state.credits, id) <= Begun(actions, id, false))
            <==> !(HookSent(events, id) && CreationSent(events, id) && ReopenerSent(events, id))
  {
    hide Among, HooksFollow, HookSent, CreationSent, ReopenerSent, Exec, EntriesFor, Begun;
    if HookSent(events, id) && CreationSent(events, id) && ReopenerSent(events, id) {
      BoundBroken(events, id);
      var actions :| Among(actions, events) && HooksFollow(actions, id) && !CapturesBound(actions, id);
    } else {
      forall actions | Among(actions, events) && HooksFollow(actions, id)
        ensures EntriesFor(Exec(actions).state.credits, id) <= Begun(actions, id, false)
      {
        BoundKept(events, actions, id);
      }
    }
  }
}
