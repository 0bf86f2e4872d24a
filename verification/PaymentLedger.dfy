/**
 * Orders and client balances under the PayPal handlers (api/routers/paypal.py:35-229), each
 * handler run taken as one event, its own steps in the order the code has them.
 */
module PaymentLedger {
  import opened Options

  datatype Status = Pending | Completed | Failed | Denied | Refunded

  /** A row of payment_orders; amounts are in cents. */
  datatype Order = Order(id: string, client: Option<string>, amount: int,
                         status: Status, transaction: Option<string>)

  /** One call of `add_credits` or `deduct_credits`: whose account, how much, for which order. */
  datatype Entry = Entry(client: string, amount: int, order: string)

  /** The two tables, and the calls that have changed the second one, in order. */
  datatype State = State(orders: seq<Order>, balances: map<string, int>,
                         credits: seq<Entry>, debits: seq<Entry>)

  datatype CaptureResult = Raised | Reported(completed: bool, transaction: Option<string>)

  /** One uninterrupted run of a handler, with what PayPal told it. */
  datatype Event =
    | CreateOrder(id: string, client: Option<string>, amount: int)
    | Capture(id: string, result: CaptureResult)
    | CompletedWebhook(order: Option<string>, capture: Option<string>)
    | DeniedWebhook(order: Option<string>)
    | RefundedWebhook(capture: Option<string>)
    | OtherWebhook

  // ---------------------------------------------------------------- the tables

  /** Missing and empty strings both count as absent. */
  predicate Present(s: Option<string>) {
    s.Some? && s.value != ""
  }

  function Find(orders: seq<Order>, id: string): (o: Option<Order>)
    ensures o.Some? ==> o.value in orders && o.value.id == id
  {
    if orders == [] then None
    else if orders[0].id == id then Some(orders[0])
    else Find(orders[1..], id)
  }

  function FindByTransaction(orders: seq<Order>, transaction: Option<string>): (o: Option<Order>)
    ensures o.Some? ==> o.value in orders && o.value.transaction == transaction && transaction.Some?
  {
    if transaction.None? || orders == [] then None
    else if orders[0].transaction == transaction then Some(orders[0])
    else FindByTransaction(orders[1..], transaction)
  }

  function SetStatus(orders: seq<Order>, id: string, status: Status): (t: seq<Order>)
    ensures |t| == |orders|
  {
    seq(|orders|, i requires 0 <= i < |orders| =>
      if orders[i].id == id then orders[i].(status := status) else orders[i])
  }

  function SetCompleted(orders: seq<Order>, id: string, transaction: Option<string>): (t: seq<Order>)
    ensures |t| == |orders|
  {
    seq(|orders|, i requires 0 <= i < |orders| =>
      if orders[i].id == id then orders[i].(status := Completed, transaction := transaction)
      else orders[i])
  }

  function Balance(balances: map<string, int>, client: string): int {
    if client in balances then balances[client] else 0
  }

  function AddTo(balances: map<string, int>, client: string, amount: int): map<string, int> {
    balances[client := Balance(balances, client) + amount]
  }

  /** `add_credits` for an order that was read, if it names a client. */
  function Credit(s: State, o: Order): State {
    if Present(o.client) then
      s.(balances := AddTo(s.balances, o.client.value, o.amount),
         credits := s.credits + [Entry(o.client.value, o.amount, o.id)])
    else s
  }

  /** Likewise `deduct_credits`. */
  function Deduct(s: State, o: Order): State {
    if Present(o.client) then
      s.(balances := AddTo(s.balances, o.client.value, -o.amount),
         debits := s.debits + [Entry(o.client.value, o.amount, o.id)])
    else s
  }

  // ---------------------------------------------------------------- the handlers as steps

  function Step(s: State, e: Event): State {
    match e
    case CreateOrder(id, client, amount) =>
      if amount <= 0 || Find(s.orders, id).Some? then s
      else s.(orders := s.orders + [Order(id, client, amount, Pending, None)])
    case Capture(id, Raised) => s
    case Capture(id, Reported(true, transaction)) =>
      var order := Find(s.orders, id);
      if order.None? then s
      else Credit(s.(orders := SetCompleted(s.orders, id, transaction)), order.value)
    case Capture(id, Reported(false, _)) => s.(orders := SetStatus(s.orders, id, Failed))
    case CompletedWebhook(order, capture) =>
      if Present(order) then CreditUnlessCompleted(MarkCompleted(s, order.value, capture), order.value)
      else s
    case DeniedWebhook(order) =>
      if Present(order) then s.(orders := SetStatus(s.orders, order.value, Denied)) else s
    case RefundedWebhook(capture) =>
      var order := FindByTransaction(s.orders, capture);
      if order.None? then s
      else Deduct(s.(orders := SetStatus(s.orders, order.value.id, Refunded)), order.value)
    case OtherWebhook => s
  }

  /** The two halves of the completed-payment webhook: first the update ... */
  function MarkCompleted(s: State, id: string, capture: Option<string>): State {
    s.(orders := SetCompleted(s.orders, id, capture))
  }

  /** ... then the read, and the credit "if not already added". */
  function CreditUnlessCompleted(s: State, id: string): State {
    var order := Find(s.orders, id);
    if order.Some? && order.value.status != Completed then Credit(s, order.value) else s
  }

  function Run(trace: seq<Event>): State {
    if trace == [] then State([], map[], [], [])
    else Step(Run(trace[..|trace| - 1]), trace[|trace| - 1])
  }

  // ---------------------------------------------------------------- what a trace says

  predicate CompletedCapture(e: Event, id: string) {
    e.Capture? && e.id == id && e.result.Reported? && e.result.completed
  }

  /** Runs of the browser capture that PayPal reported completed, once the order was stored. */
  function StoredCaptures(trace: seq<Event>, id: string): nat {
    if trace == [] then 0 else
    var front, e := trace[..|trace| - 1], trace[|trace| - 1];
    StoredCaptures(front, id)
    + (if CompletedCapture(e, id) && Find(Run(front).orders, id).Some? then 1 else 0)
  }

  /** The order a refund event's capture id leads to. */
  function RefundedOrder(s: State, e: Event): Option<Order> {
    if e.RefundedWebhook? then FindByTransaction(s.orders, e.capture) else None
  }

  predicate RefundOf(s: State, e: Event, id: string) {
    var o := RefundedOrder(s, e); o.Some? && o.value.id == id
  }

  /** Refund events that led to the order. */
  function Refunds(trace: seq<Event>, id: string): nat {
    if trace == [] then 0 else
    var front, e := trace[..|trace| - 1], trace[|trace| - 1];
    Refunds(front, id) + (if RefundOf(Run(front), e, id) then 1 else 0)
  }

  function Paid(trace: seq<Event>, id: string): int {
    StoredCaptures(trace, id) - Refunds(trace, id)
  }

  function Times(amount: int, n: int): int {
    amount * n
  }

  /** Over the orders of a client: amount times captures less refunds. */
  function Net(orders: seq<Order>, trace: seq<Event>, client: string): int {
    if orders == [] then 0 else
    var o := orders[0];
    (if o.client == Some(client) then Times(o.amount, Paid(trace, o.id)) else 0)
    + Net(orders[1..], trace, client)
  }

  ghost predicate UniqueIds(orders: seq<Order>) {
    forall i, j :: 0 <= i < j < |orders| ==> orders[i].id != orders[j].id
  }

  /** Row by row the same order, whatever its status and transaction. */
  ghost predicate SameOrders(a: seq<Order>, b: seq<Order>) {
    && |a| == |b|
    && forall i :: 0 <= i < |a| ==>
         a[i].id == b[i].id && a[i].client == b[i].client && a[i].amount == b[i].amount
  }

  // ---------------------------------------------------------------- reading the order table

  lemma {:induction false} FindNone(orders: seq<Order>, id: string)
    ensures Find(orders, id).None? <==> forall i :: 0 <= i < |orders| ==> orders[i].id != id
  {
    if orders != [] {
      FindNone(orders[1..], id);
      assert forall i :: 0 < i < |orders| ==> orders[i] == orders[1..][i - 1];
      if Find(orders, id).None? {
        forall i | 0 <= i < |orders|
          ensures orders[i].id != id
        {
          if i > 0 {
            assert orders[1..][i - 1].id != id;
          }
        }
      }
    }
  }

  lemma {:induction false} FindAppended(orders: seq<Order>, o: Order, id: string)
    ensures Find(orders + [o], id)
            == if Find(orders, id).Some? then Find(orders, id) else if o.id == id then Some(o) else None
  {
    if orders == [] {
      assert ([] + [o])[1..] == [];
    } else if orders[0].id != id {
      FindAppended(orders[1..], o, id);
      assert (orders + [o])[1..] == orders[1..] + [o];
    }
  }

  lemma {:induction false} FindStatus(orders: seq<Order>, x: string, status: Status, id: string)
    ensures var o := Find(orders, id);
            Find(SetStatus(orders, x, status), id)
            == if o.Some? && x == id then Some(o.value.(status := status)) else o
  {
    if orders != [] && orders[0].id != id {
      FindStatus(orders[1..], x, status, id);
      assert SetStatus(orders, x, status)[1..] == SetStatus(orders[1..], x, status);
    }
  }

  lemma {:induction false} FindCompleted(orders: seq<Order>, x: string, t: Option<string>, id: string)
    ensures var o := Find(orders, id);
            Find(SetCompleted(orders, x, t), id)
            == if o.Some? && x == id then Some(o.value.(status := Completed, transaction := t)) else o
  {
    if orders != [] && orders[0].id != id {
      FindCompleted(orders[1..], x, t, id);
      assert SetCompleted(orders, x, t)[1..] == SetCompleted(orders[1..], x, t);
    }
  }

  lemma {:induction false} FindUnique(orders: seq<Order>, o: Order)
    requires UniqueIds(orders) && o in orders
    ensures Find(orders, o.id) == Some(o)
  {
    if orders[0] != o {
      assert o in orders[1..];
      FindUnique(orders[1..], o);
      assert exists i :: 0 < i < |orders| && orders[i] == o;
    }
  }

  predicate FailedCapture(e: Event, id: string) {
    e.Capture? && e.id == id && e.result.Reported? && !e.result.completed
  }

  predicate Denial(e: Event, id: string) {
    e.DeniedWebhook? && Present(e.order) && e.order.value == id
  }

  /** A run of the completed-payment webhook for the order. */
  predicate CompletedHook(e: Event, id: string) {
    e.CompletedWebhook? && Present(e.order) && e.order.value == id
  }

  predicate Completes(e: Event, id: string) {
    CompletedCapture(e, id) || CompletedHook(e, id)
  }

  /** The id of the capture that a completing event reports. */
  function CaptureId(e: Event): Option<string>
    requires e.CompletedWebhook? || (e.Capture? && e.result.Reported?)
  {
    if e.Capture? then e.result.transaction else e.capture
  }

  /** An event that writes another status than COMPLETED to the order. */
  predicate Reopens(s: State, e: Event, id: string) {
    FailedCapture(e, id) || Denial(e, id) || RefundOf(s, e, id)
  }

  /** The row of the order after an event, whatever it was before. */
  function RowAfter(s: State, e: Event, o: Order): Order {
    if Completes(e, o.id) then o.(status := Completed, transaction := CaptureId(e))
    else if FailedCapture(e, o.id) then o.(status := Failed)
    else if Denial(e, o.id) then o.(status := Denied)
    else if RefundOf(s, e, o.id) then o.(status := Refunded)
    else o
  }

  /** A row that is there stays, with the client and the amount it was stored with. */
  ghost predicate Stays(before: Option<Order>, after: Option<Order>) {
    before.Some? ==> after.Some? && after.value.client == before.value.client
                     && after.value.amount == before.value.amount
  }

  /** What one event makes of the row with a given id. */
  lemma {:induction false} FindAfter(s: State, e: Event, id: string)
    ensures var o, o' := Find(s.orders, id), Find(Step(s, e).orders, id);
            && Stays(o, o')
            && (o.None? ==> o' == if e.CreateOrder? && e.id == id && e.amount > 0
                                  then Some(Order(id, e.client, e.amount, Pending, None)) else None)
            && (o.Some? ==> o' == Some(RowAfter(s, e, o.value)))
            && (o.Some? && o.value.status == Completed ==>
                  (o'.value.status != Completed <==> Reopens(s, e, id)))
  {
    hide Find, FindByTransaction;
    match e
    case CreateOrder(x, c, amount) => FindAppended(s.orders, Order(x, c, amount, Pending, None), id);
    case Capture(x, Reported(true, t)) => FindCompleted(s.orders, x, t, id);
    case Capture(x, Reported(false, _)) => FindStatus(s.orders, x, Failed, id);
    case CompletedWebhook(order, t) =>
      if Present(order) {
        FindCompleted(s.orders, order.value, t, id);
      }
    case DeniedWebhook(order) =>
      if Present(order) {
        FindStatus(s.orders, order.value, Denied, id);
      }
    case RefundedWebhook(t) =>
      var o := FindByTransaction(s.orders, t);
      if o.Some? {
        FindStatus(s.orders, o.value.id, Refunded, id);
      }
    case _ =>
  }

  lemma {:induction false} UpdatesKeepOrders(orders: seq<Order>, id: string, status: Status, t: Option<string>)
    ensures SameOrders(orders, SetStatus(orders, id, status))
    ensures SameOrders(orders, SetCompleted(orders, id, t))
  {
  }

  lemma {:induction false} StepKeepsOrders(s: State, e: Event)
    ensures !e.CreateOrder? ==> SameOrders(s.orders, Step(s, e).orders)
  {
    hide Find, FindByTransaction, Present;
  }

  ghost predicate PositiveAmounts(orders: seq<Order>) {
    forall i :: 0 <= i < |orders| ==> orders[i].amount > 0
  }

  /** Ids are unique and amounts positive in the table. */
  ghost predicate SoundTable(orders: seq<Order>) {
    UniqueIds(orders) && PositiveAmounts(orders)
  }

  lemma {:induction false} StepKeepsSound(s: State, e: Event)
    requires SoundTable(s.orders)
    ensures SoundTable(Step(s, e).orders)
  {
    if e.CreateOrder? {
      FindNone(s.orders, e.id);
    } else {
      hide Step;
      StepKeepsOrders(s, e);
    }
  }

  lemma {:induction false} TableStaysSound(trace: seq<Event>)
    ensures SoundTable(Run(trace).orders)
  {
    if trace != [] {
      hide Step;
      TableStaysSound(trace[..|trace| - 1]);
      StepKeepsSound(Run(trace[..|trace| - 1]), trace[|trace| - 1]);
    }
  }

  // ---------------------------------------------------------------- balances from the trace

  lemma {:induction false} NetUnchanged(
    a: seq<Order>, b: seq<Order>, t: seq<Event>, t': seq<Event>, client: string)
    requires SameOrders(a, b)
    requires forall i :: 0 <= i < |a| ==> Paid(t, a[i].id) == Paid(t', a[i].id)
    ensures Net(a, t, client) == Net(b, t', client)
  {
    hide Paid, Times;
    if a != [] {
      NetUnchanged(a[1..], b[1..], t, t', client);
    }
  }

  lemma {:induction false} TimesPlus(amount: int, n: int, d: int)
    ensures Times(amount, n + d) == Times(amount, n) + Times(amount, d)
  {
  }

  /** One order's count moving by `d` moves its client's net by `d` times its amount. */
  lemma {:induction false} NetMoved(
    a: seq<Order>, b: seq<Order>, t: seq<Event>, t': seq<Event>, o: Order, d: int, client: string)
    requires SameOrders(a, b) && UniqueIds(a) && o in a
    requires forall id :: Paid(t', id) == Paid(t, id) + (if id == o.id then d else 0)
    ensures Net(b, t', client)
            == Net(a, t, client) + (if o.client == Some(client) then Times(o.amount, d) else 0)
  {
    hide Paid, Times;
    if a[0] == o {
      NetUnchanged(a[1..], b[1..], t, t', client);
      TimesPlus(o.amount, Paid(t, o.id), d);
    } else {
      var i :| 0 < i < |a| && a[i] == o;
      assert a[1..][i - 1] == o;
      NetMoved(a[1..], b[1..], t, t', o, d, client);
    }
  }

  lemma {:induction false} NothingCountedBeforeStored(trace: seq<Event>, id: string)
    requires Find(Run(trace).orders, id).None?
    ensures StoredCaptures(trace, id) == 0 && Refunds(trace, id) == 0
  {
    hide Step;
    if trace != [] {
      var front, e := trace[..|trace| - 1], trace[|trace| - 1];
      FindAfter(Run(front), e, id);
      NothingCountedBeforeStored(front, id);
      FindNone(Run(front).orders, id);
    }
  }

  lemma {:induction false} NextEvent(front: seq<Event>, e: Event)
    ensures Run(front + [e]) == Step(Run(front), e)
    ensures forall id :: StoredCaptures(front + [e], id)
              == StoredCaptures(front, id)
                 + (if CompletedCapture(e, id) && Find(Run(front).orders, id).Some? then 1 else 0)
    ensures forall id :: Refunds(front + [e], id)
              == Refunds(front, id) + (if RefundOf(Run(front), e, id) then 1 else 0)
  {
    hide Step, CompletedCapture, Find, RefundOf;
    assert (front + [e])[..|front|] == front;
  }

  lemma {:induction false} PaidAfter(front: seq<Event>, e: Event, id: string)
    ensures Paid(front + [e], id)
            == Paid(front, id)
               + (if CompletedCapture(e, id) && Find(Run(front).orders, id).Some? then 1 else 0)
               - (if RefundOf(Run(front), e, id) then 1 else 0)
  {
    hide StoredCaptures, Refunds, Run, Find, RefundOf, CompletedCapture;
    NextEvent(front, e);
  }

  lemma {:induction false} NetOfAppended(orders: seq<Order>, o: Order, t: seq<Event>, client: string)
    requires Paid(t, o.id) == 0
    ensures Net(orders + [o], t, client) == Net(orders, t, client)
  {
    hide Paid;
    if orders == [] {
      assert [o][1..] == [];
    } else {
      NetOfAppended(orders[1..], o, t, client);
      assert (orders + [o])[1..] == orders[1..] + [o];
    }
  }

  /** One more event moves each client's balance and net amount alike. */
  lemma {:induction false} BalanceStep(front: seq<Event>, e: Event, client: string)
    requires client != "" && UniqueIds(Run(front).orders)
    requires Balance(Run(front).balances, client) == Net(Run(front).orders, front, client)
    ensures Balance(Step(Run(front), e).balances, client)
            == Net(Step(Run(front), e).orders, front + [e], client)
  {
    hide Paid, Run, Net, Find, FindByTransaction, UniqueIds;
    var s, all := Run(front), front + [e];
    forall id
      ensures Paid(all, id) == Paid(front, id)
                + (if CompletedCapture(e, id) && Find(s.orders, id).Some? then 1 else 0)
                - (if RefundOf(s, e, id) then 1 else 0)
    {
      PaidAfter(front, e, id);
    }
    match e
    case CreateOrder(id, c, amount) =>
      NetUnchanged(s.orders, s.orders, front, all, client);
      if amount > 0 && Find(s.orders, id).None? {
        NothingPaid(front, id);
        NetOfAppended(s.orders, Order(id, c, amount, Pending, None), all, client);
      }
    case Capture(id, Reported(true, t)) =>
      var o := Find(s.orders, id);
      if o.Some? {
        UpdatesKeepOrders(s.orders, id, Failed, t);
        NetMoved(s.orders, SetCompleted(s.orders, id, t), front, all, o.value, 1, client);
      } else {
        NetUnchanged(s.orders, s.orders, front, all, client);
      }
    case RefundedWebhook(capture) =>
      var o := FindByTransaction(s.orders, capture);
      if o.Some? {
        UpdatesKeepOrders(s.orders, o.value.id, Refunded, None);
        NetMoved(s.orders, SetStatus(s.orders, o.value.id, Refunded), front, all, o.value, -1, client);
      } else {
        NetUnchanged(s.orders, s.orders, front, all, client);
      }
    case _ =>
      BalancesUntouched(s, e);
      StepKeepsOrders(s, e);
      NetUnchanged(s.orders, Step(s, e).orders, front, all, client);
  }

  lemma {:induction false} NothingPaid(trace: seq<Event>, id: string)
    requires Find(Run(trace).orders, id).None?
    ensures Paid(trace, id) == 0
  {
    hide Run, Find, StoredCaptures, Refunds;
    NothingCountedBeforeStored(trace, id);
  }

  /** Only the browser capture and the refund webhook change a balance. */
  lemma {:induction false} BalancesUntouched(s: State, e: Event)
    requires !(e.Capture? && e.result.Reported? && e.result.completed) && !e.RefundedWebhook?
    ensures var t := Step(s, e);
            t.balances == s.balances && t.credits == s.credits && t.debits == s.debits
  {
    hide Credit, Find, FindByTransaction;
    if e.CompletedWebhook? {
      WebhookNeverCredits(s, e.order, e.capture);
    }
  }

  lemma {:induction false} WebhookNeverCredits(s: State, order: Option<string>, capture: Option<string>)
    ensures var t := Step(s, CompletedWebhook(order, capture));
            t.balances == s.balances && t.credits == s.credits && t.debits == s.debits
  {
    hide Credit, Find;
    if Present(order) {
      FindCompleted(s.orders, order.value, capture, order.value);
    }
  }

  /**
   * Main theorem: after every trace each balance is, over the client's orders, the amount times
   * completed captures less amount times processed refunds.
   */
  lemma {:induction false} BalanceIsNet(trace: seq<Event>, client: string)
    requires client != ""
    ensures Balance(Run(trace).balances, client) == Net(Run(trace).orders, trace, client)
  {
    hide Step, Net, Balance;
    if trace == [] {
      EmptyNet(client);
    } else {
      var front, e := trace[..|trace| - 1], trace[|trace| - 1];
      BalanceIsNet(front, client);
      TableStaysSound(front);
      BalanceStep(front, e, client);
      assert front + [e] == trace;
    }
  }

  lemma {:induction false} EmptyNet(client: string)
    ensures Balance(map[], client) == 0 == Net([], [], client)
  {
  }

  // ---------------------------------------------------------------- who gets credited

  /** How often the log names an order, and how much it comes to for a client. */
  function EntriesFor(log: seq<Entry>, order: string): nat {
    if log == [] then 0
    else EntriesFor(log[..|log| - 1], order) + (if log[|log| - 1].order == order then 1 else 0)
  }

  function TotalFor(log: seq<Entry>, client: string): int {
    if log == [] then 0
    else TotalFor(log[..|log| - 1], client)
         + (if log[|log| - 1].client == client then log[|log| - 1].amount else 0)
  }

  lemma {:induction false} EntryAdded(log: seq<Entry>, x: Entry, order: string, client: string)
    ensures EntriesFor(log + [x], order) == EntriesFor(log, order) + (if x.order == order then 1 else 0)
    ensures TotalFor(log + [x], client)
            == TotalFor(log, client) + (if x.client == client then x.amount else 0)
  {
    assert (log + [x])[..|log|] == log;
  }

  lemma {:induction false} NamedWhen(log: seq<Entry>, order: string)
    ensures EntriesFor(log, order) > 0 <==> exists k :: 0 <= k < |log| && log[k].order == order
  {
    if log != [] {
      var n := |log| - 1;
      NamedWhen(log[..n], order);
      if exists k :: 0 <= k < n && log[k].order == order {
        var k :| 0 <= k < n && log[k].order == order;
        assert log[..n][k].order == order;
      }
    }
  }

  /** The order is stored and names a client. */
  predicate HasClient(orders: seq<Order>, id: string) {
    var o := Find(orders, id); o.Some? && Present(o.value.client)
  }

  /** What one event adds to the log entries for an order. */
  lemma {:induction false} EntriesAfter(s: State, e: Event, id: string)
    requires UniqueIds(s.orders)
    ensures EntriesFor(Step(s, e).credits, id)
            == EntriesFor(s.credits, id) + (if CompletedCapture(e, id) && HasClient(s.orders, id) then 1 else 0)
    ensures EntriesFor(Step(s, e).debits, id)
            == EntriesFor(s.debits, id) + (if RefundOf(s, e, id) && HasClient(s.orders, id) then 1 else 0)
  {
    hide Find, FindByTransaction, UniqueIds, EntriesFor, TotalFor, SetStatus, SetCompleted, AddTo;
    match e
    case Capture(x, Reported(true, _)) =>
      var o := Find(s.orders, x);
      if o.Some? && Present(o.value.client) {
        EntryAdded(s.credits, Entry(o.value.client.value, o.value.amount, x), id, "");
      }
    case RefundedWebhook(capture) =>
      var o := FindByTransaction(s.orders, capture);
      if o.Some? {
        FindUnique(s.orders, o.value);
        if Present(o.value.client) {
          EntryAdded(s.debits, Entry(o.value.client.value, o.value.amount, o.value.id), id, "");
        }
      }
    case _ => BalancesUntouched(s, e);
  }

  /** Every credit is a completed capture of a stored order with a client, and every such one a credit. */
  lemma {:induction false} LogIsTrace(trace: seq<Event>, id: string)
    ensures var s, known := Run(trace), HasClient(Run(trace).orders, id);
            && EntriesFor(s.credits, id) == (if known then StoredCaptures(trace, id) else 0)
            && EntriesFor(s.debits, id) == (if known then Refunds(trace, id) else 0)
  {
    hide Step, Find, CompletedCapture, RefundOf, Present, EntriesFor;
    if trace == [] {
      NoEntries(id);
    } else {
      var front, e := trace[..|trace| - 1], trace[|trace| - 1];
      var s := Run(front);
      LogIsTrace(front, id);
      TableStaysSound(front);
      EntriesAfter(s, e, id);
      FindAfter(s, e, id);
      if Find(s.orders, id).None? {
        NothingCountedBeforeStored(front, id);
        NothingToRefund(s, e, id);
      }
    }
  }

  lemma {:induction false} NoEntries(id: string)
    ensures EntriesFor([], id) == 0
  {
  }

  lemma {:induction false} NothingToRefund(s: State, e: Event, id: string)
    requires Find(s.orders, id).None?
    ensures !RefundOf(s, e, id)
  {
    FindNone(s.orders, id);
  }

  /** Captures of an order that PayPal reports completed. */
  function CompletedCaptures(trace: seq<Event>, id: string): nat {
    if trace == [] then 0
    else CompletedCaptures(trace[..|trace| - 1], id)
         + (if CompletedCapture(trace[|trace| - 1], id) then 1 else 0)
  }

  /** PayPal completing a capture at most once is enough, however many webhooks arrive. */
  lemma {:induction false} CreditedAtMostOnce(trace: seq<Event>, id: string)
    ensures EntriesFor(Run(trace).credits, id) <= CompletedCaptures(trace, id)
  {
    hide CompletedCapture, Step, EntriesFor, HasClient;
    if trace == [] {
      NoEntries(id);
    } else {
      var front := trace[..|trace| - 1];
      CreditedAtMostOnce(front, id);
      TableStaysSound(front);
      EntriesAfter(Run(front), trace[|trace| - 1], id);
    }
  }

  /** The capture run at `i` completes an order that is stored by then and names a client. */
  predicate CreditsAt(trace: seq<Event>, i: nat, id: string)
    requires i < |trace|
  {
    CompletedCapture(trace[i], id) && HasClient(Run(trace[..i]).orders, id)
  }

  ghost predicate CapturedIn(trace: seq<Event>, id: string) {
    exists i :: 0 <= i < |trace| && CreditsAt(trace, i, id)
  }

  lemma {:induction false} CapturedInNext(trace: seq<Event>, id: string)
    requires trace != []
    ensures var n := |trace| - 1;
            CapturedIn(trace, id) <==> CapturedIn(trace[..n], id) || CreditsAt(trace, n, id)
  {
    hide CompletedCapture, Run, HasClient;
    var n := |trace| - 1;
    var front := trace[..n];
    forall i | 0 <= i < n
      ensures CreditsAt(trace, i, id) <==> CreditsAt(front, i, id)
    {
      assert front[..i] == trace[..i] && front[i] == trace[i];
    }
    if CapturedIn(front, id) {
      var i :| 0 <= i < n && CreditsAt(front, i, id);
      assert CreditsAt(trace, i, id);
    }
  }

  lemma {:induction false} CountedWhenCaptured(trace: seq<Event>, id: string)
    ensures EntriesFor(Run(trace).credits, id) > 0 <==> CapturedIn(trace, id)
  {
    hide CompletedCapture, Step, HasClient, EntriesFor, CapturedIn;
    if trace == [] {
      NoEntries(id);
      NoCapture(id);
    } else {
      var n := |trace| - 1;
      CountedWhenCaptured(trace[..n], id);
      TableStaysSound(trace[..n]);
      EntriesAfter(Run(trace[..n]), trace[n], id);
      CapturedInNext(trace, id);
    }
  }

  lemma {:induction false} NoCapture(id: string)
    ensures !CapturedIn([], id)
  {
  }

  /** An order has been credited exactly when some capture run completed it, stored with a client. */
  lemma {:induction false} CreditedWhen(trace: seq<Event>, id: string)
    ensures (exists k :: 0 <= k < |Run(trace).credits| && Run(trace).credits[k].order == id)
            <==> exists i :: 0 <= i < |trace| && CreditsAt(trace, i, id)
  {
    hide Run, CreditsAt, EntriesFor;
    NamedWhen(Run(trace).credits, id);
    CountedWhenCaptured(trace, id);
  }

  /** The entry carries the client and the positive amount the order was stored with. */
  ghost predicate Backed(orders: seq<Order>, x: Entry) {
    var o := Find(orders, x.order);
    && o.Some? && o.value.client == Some(x.client) && o.value.amount == x.amount
    && x.client != "" && x.amount > 0
  }

  ghost predicate AllBacked(s: State) {
    && (forall k :: 0 <= k < |s.credits| ==> Backed(s.orders, s.credits[k]))
    && (forall k :: 0 <= k < |s.debits| ==> Backed(s.orders, s.debits[k]))
  }

  /** Every change of a balance is for a stored order, of its client and by its amount. */
  lemma {:induction false} EveryEntryIsBacked(trace: seq<Event>)
    ensures AllBacked(Run(trace))
  {
    hide Step, AllBacked;
    if trace == [] {
      NothingToBack();
    } else {
      var front, e := trace[..|trace| - 1], trace[|trace| - 1];
      EveryEntryIsBacked(front);
      TableStaysSound(front);
      StepBacked(Run(front), e);
    }
  }

  lemma {:induction false} NothingToBack()
    ensures AllBacked(State([], map[], [], []))
  {
  }

  lemma {:induction false} StepBacked(s: State, e: Event)
    requires AllBacked(s) && SoundTable(s.orders)
    ensures AllBacked(Step(s, e))
  {
    hide Find, FindByTransaction, UniqueIds, SetStatus, SetCompleted, AddTo;
    var t := Step(s, e);
    forall x: Entry | Backed(s.orders, x)
      ensures Backed(t.orders, x)
    {
      hide Step;
      FindAfter(s, e, x.order);
    }
    match e
    case Capture(id, Reported(true, _)) => FindAfter(s, e, id);
    case RefundedWebhook(capture) =>
      var o := FindByTransaction(s.orders, capture);
      if o.Some? {
        FindUnique(s.orders, o.value);
        FindAfter(s, e, o.value.id);
      }
    case _ => BalancesUntouched(s, e);
  }

  /** Each balance is what was credited to it less what was deducted. */
  ghost predicate Accounts(s: State, client: string) {
    Balance(s.balances, client) == TotalFor(s.credits, client) - TotalFor(s.debits, client)
  }

  lemma {:induction false} BalanceIsLog(trace: seq<Event>, client: string)
    ensures Accounts(Run(trace), client)
  {
    hide Step, Accounts;
    if trace == [] {
      EmptyAccount(client);
    } else {
      BalanceIsLog(trace[..|trace| - 1], client);
      StepAccounts(Run(trace[..|trace| - 1]), trace[|trace| - 1], client);
    }
  }

  lemma {:induction false} EmptyAccount(client: string)
    ensures Accounts(State([], map[], [], []), client)
  {
  }

  lemma {:induction false} CreditAccounts(s: State, o: Order, client: string)
    requires Accounts(s, client)
    ensures Accounts(Credit(s, o), client) && Accounts(Deduct(s, o), client)
  {
    hide TotalFor, EntriesFor;
    if Present(o.client) {
      var x := Entry(o.client.value, o.amount, o.id);
      EntryAdded(s.credits, x, "", client);
      EntryAdded(s.debits, x, "", client);
    }
  }

  lemma {:induction false} StepAccounts(s: State, e: Event, client: string)
    requires Accounts(s, client)
    ensures Accounts(Step(s, e), client)
  {
    hide TotalFor, Find, FindByTransaction, Balance, Credit, Deduct, SetStatus, SetCompleted;
    match e
    case Capture(id, Reported(true, t)) =>
      var o := Find(s.orders, id);
      if o.Some? {
        CreditAccounts(s.(orders := SetCompleted(s.orders, id, t)), o.value, client);
      }
    case RefundedWebhook(capture) =>
      var o := FindByTransaction(s.orders, capture);
      if o.Some? {
        CreditAccounts(s.(orders := SetStatus(s.orders, o.value.id, Refunded)), o.value, client);
      }
    case _ => BalancesUntouched(s, e);
  }

  /** The webhook's credit never happens: an order paid through it alone stays uncredited. */
  lemma {:induction false} WebhookAloneLeavesUncredited(
    id: string, client: string, amount: int, capture: Option<string>)
    requires id != "" && client != "" && amount > 0
    ensures var s := Run([CreateOrder(id, Some(client), amount), CompletedWebhook(Some(id), capture)]);
            && Find(s.orders, id) == Some(Order(id, Some(client), amount, Completed, capture))
            && s.credits == [] && Balance(s.balances, client) == 0
  {
    var create, hook := CreateOrder(id, Some(client), amount), CompletedWebhook(Some(id), capture);
    assert [create, hook] == [create] + [hook] && [create] == [] + [create];
    NextEvent([create], hook);
    NextEvent([], create);
    WebhookNeverCredits(Run([create]), Some(id), capture);
  }

  /** Whether the webhook's read, after `e` has come between its update and it, calls for a credit. */
  ghost predicate CreditDue(s: State, e: Event, id: string) {
    var stored := Find(s.orders, id);
    if stored.Some? then Present(stored.value.client) && Reopens(s, e, id)
    else e.CreateOrder? && e.id == id && e.amount > 0 && Present(e.client)
  }

  ghost function AmountDue(s: State, e: Event, id: string): int
    requires CreditDue(s, e, id)
  {
    var stored := Find(s.orders, id);
    if stored.Some? then stored.value.amount else e.amount
  }

  /**
   * A handler run slipping in makes the webhook credit exactly when it writes another status to
   * the stored order, or stores the order only now; either way the order must name a client.
   */
  lemma {:induction false} InterruptedWebhookCreditsWhen(s: State, id: string, capture: Option<string>, e: Event)
    ensures var marked := MarkCompleted(s, id, capture);
            var t := Step(marked, e);
            var u := CreditUnlessCompleted(t, id);
            && (u.credits != t.credits <==> CreditDue(marked, e, id))
            && ((exists c :: Balance(u.balances, c) != Balance(t.balances, c))
                <==> CreditDue(marked, e, id) && AmountDue(marked, e, id) != 0)
  {
    hide Reopens, Step, Find, AddTo, Balance;
    var marked := MarkCompleted(s, id, capture);
    var t := Step(marked, e);
    FindCompleted(s.orders, id, capture, id);
    FindAfter(marked, e, id);
    var read := Find(t.orders, id);
    if CreditDue(marked, e, id) {
      assert CreditUnlessCompleted(t, id) == Credit(t, read.value);
      CreditShows(t, read.value);
    }
  }

  lemma {:induction false} CreditShows(s: State, o: Order)
    requires Present(o.client)
    ensures Credit(s, o).credits != s.credits
    ensures (exists c :: Balance(Credit(s, o).balances, c) != Balance(s.balances, c)) <==> o.amount != 0
  {
    var c := o.client.value;
    assert Balance(Credit(s, o).balances, c) == Balance(s.balances, c) + o.amount;
  }

  // ---------------------------------------------------------------- the handlers

  datatype Redirect = SuccessPage(amount: int) | FailedPage | ErrorPage

  class Router {
    var orders: seq<Order>
    var balances: map<string, int>
    /** The calls of `add_credits` and `deduct_credits` so far. */
    ghost var credits: seq<Entry>
    ghost var debits: seq<Entry>
    ghost var trace: seq<Event>

    ghost function Now(): State
      reads this
    {
      State(orders, balances, credits, debits)
    }

    /** The tables and the calls are what the handler runs so far make of them. */
    ghost predicate Valid()
      reads this
    {
      Now() == Run(trace)
    }

    constructor ()
      ensures Valid() && trace == []
    {
      orders, balances := [], map[];
      credits, debits, trace := [], [], [];
    }

    method AddCredits(o: Order)
      modifies `balances, `credits
      ensures Now() == Credit(old(Now()), o)
    {
      if Present(o.client) {
        balances := AddTo(balances, o.client.value, o.amount);
        credits := credits + [Entry(o.client.value, o.amount, o.id)];
      }
    }

    method DeductCredits(o: Order)
      modifies `balances, `debits
      ensures Now() == Deduct(old(Now()), o)
    {
      if Present(o.client) {
        balances := AddTo(balances, o.client.value, -o.amount);
        debits := debits + [Entry(o.client.value, o.amount, o.id)];
      }
    }

    /** `created` is the id PayPal gives the order, or `None` when that call fails. */
    method CreatePaymentOrder(created: Option<string>, client: Option<string>, amount: int)
      returns (ok: bool)
      requires Valid()
      modifies this
      ensures Valid()
      ensures trace == old(trace)
                       + (if created.Some? then [CreateOrder(created.value, client, amount)] else [])
      ensures ok <==> amount > 0 && created.Some? && Find(old(orders), created.value).None?
    {
      hide Run, StoredCaptures, Refunds, SetStatus, SetCompleted, AddTo, FindByTransaction, Find;
      if created.Some? {
        NextEvent(trace, CreateOrder(created.value, client, amount));
        trace := trace + [CreateOrder(created.value, client, amount)];
      }
      if amount <= 0 || created.None? || Find(orders, created.value).Some? {
        return false;
      }
      orders := orders + [Order(created.value, client, amount, Pending, None)];
      return true;
    }

    method CapturePaymentOrder(id: string, result: CaptureResult) returns (page: Redirect)
      requires Valid()
      modifies this
      ensures Valid() && trace == old(trace) + [Capture(id, result)]
      ensures page == match result
                      case Raised => ErrorPage
                      case Reported(false, _) => FailedPage
                      case Reported(true, _) =>
                        var o := Find(old(orders), id);
                        SuccessPage(if o.Some? then o.value.amount else 0)
    {
      hide Run, StoredCaptures, Refunds, SetStatus, SetCompleted, AddTo, FindByTransaction, Find;
      NextEvent(trace, Capture(id, result));
      trace := trace + [Capture(id, result)];
      if result.Raised? {
        return ErrorPage;
      }
      if !result.completed {
        orders := SetStatus(orders, id, Failed);
        return FailedPage;
      }
      var order := Find(orders, id);
      if order.Some? {
        orders := SetCompleted(orders, id, result.transaction);
        AddCredits(order.value);
      }
      return SuccessPage(if order.Some? then order.value.amount else 0);
    }

    /** `event` is one of the webhook events; an invalid signature leaves everything alone. */
    method PaypalWebhook(valid: bool, event: Event) returns (code: int)
      requires Valid() && !event.CreateOrder? && !event.Capture?
      modifies this
      ensures Valid() && trace == old(trace) + (if valid then [event] else [])
      ensures code == if valid then 200 else 401
      ensures event.CompletedWebhook? ==> balances == old(balances) && credits == old(credits)
    {
      hide Run, StoredCaptures, Refunds, SetStatus, SetCompleted, AddTo, FindByTransaction, Find;
      if !valid {
        return 401;
      }
      NextEvent(trace, event);
      trace := trace + [event];
      match event {
        case CompletedWebhook(id, capture) =>
          WebhookNeverCredits(Now(), id, capture);
          if Present(id) {
            orders := SetCompleted(orders, id.value, capture);
            var order := Find(orders, id.value);
            if order.Some? && order.value.status != Completed {
              AddCredits(order.value);
            }
          }
        case DeniedWebhook(id) =>
          if Present(id) {
            orders := SetStatus(orders, id.value, Denied);
          }
        case RefundedWebhook(capture) =>
          var order := FindByTransaction(orders, capture);
          if order.Some? {
            orders := SetStatus(orders, order.value.id, Refunded);
            DeductCredits(order.value);
          }
        case OtherWebhook =>
      }
      return 200;
    }
  }
}
