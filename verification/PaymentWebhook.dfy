/**
 The payment webhook, licence generation and order confirmation.

 Many deliveries of Stripe events run at once. Each delivery has its own program counter and moves
 one database or queue operation at a time, so a run is any sequence of steps by any deliveries,
 with failures, crashes and the order service's consumer in between. A step whose guard is false
 leaves the state alone, so the theorems below quantify over all sequences of steps.
 */
module PaymentWebhook {
  import opened Common

  type EventId = string
  type IntentId = string
  type OrderId = string
  type ProductId = string
  type DeliveryId = nat

  datatype EventKind = PaymentSucceeded | PaymentFailed | ChargeRefunded | OtherEvent
  datatype Event = Event(kind: EventKind, intent: IntentId)

  datatype OrderItem = OrderItem(productId: ProductId, productType: string, quantity: int)
  datatype OrderStatus = Pending | Paid | Cancelled | Refunded
  datatype Order = Order(id: OrderId, items: seq<OrderItem>, status: OrderStatus)
  datatype License = License(orderId: OrderId, productId: ProductId)

  /** What the payment service puts on the order service's queue. */
  datatype Message = ConfirmedMsg(intent: IntentId) | FailedMsg(intent: IntentId) | RefundedMsg(intent: IntentId)

  /** Where a delivery stands inside `handleWebhookEvent`. */
  datatype Pc =
    | Received                                      // before the claim
    | Skipped                                       // lost the claim race
    | Claimed                                       // inserted the claim row
    | Fetched(order: Order)                         // order resolved over RPC
    | Checked(order: Order)                         // saw no licence of the order
    | Generated(order: Order, issued: seq<License>) // licences are stored
    | Emitted(order: Order, issued: seq<License>)   // PAYMENT.CONFIRMED is queued
    | Finished
    | Failing                                       // an exception is on its way to the catch block
    | Released                                      // claim row deleted, exception rethrown
    | Crashed                                       // process died; the claim row stays

  datatype Delivery = Delivery(event: EventId, pc: Pc)

  /**
   `events` and `createdFor` are Stripe's side: what each event says, and which order each payment intent was
   created for. `placed` remembers every order ever placed, `orders` holds the rows not purged since, and
   `intents` the payment intent column of these rows, by intent.
   */
  datatype State = State(
    events: map<EventId, Event>,
    createdFor: map<IntentId, OrderId>,
    placed: map<OrderId, seq<OrderItem>>,
    claims: set<EventId>,
    licences: seq<License>,
    orders: map<OrderId, Order>,
    intents: map<IntentId, OrderId>,
    queue: seq<Message>,
    notices: seq<OrderId>,
    deliveries: map<DeliveryId, Delivery>)

  datatype Step =
    | PlaceOrder(order: OrderId, items: seq<OrderItem>)
    | AttachIntent(order: OrderId, intent: IntentId)
    | Receive(d: DeliveryId, event: EventId)
    | Claim(d: DeliveryId)
    | Fetch(d: DeliveryId)
    | CheckExisting(d: DeliveryId)
    | SaveLicences(d: DeliveryId)
    | EmitConfirmed(d: DeliveryId)
    | Notify(d: DeliveryId, reachable: bool)
    | EmitOther(d: DeliveryId)
    | Fail(d: DeliveryId)
    | Release(d: DeliveryId)
    | Crash(d: DeliveryId)
    | Consume
    | Lose
    | Purge(order: OrderId)

  /** Past the claim: the delivery owns the claim row of its event, or finished while owning it. */
  predicate Holds(pc: Pc) {
    !(pc.Received? || pc.Skipped? || pc.Released?)
  }

  /** Still executing the handler. */
  predicate Active(pc: Pc) {
    pc.Claimed? || pc.Fetched? || pc.Checked? || pc.Generated? || pc.Emitted?
  }

  function LicenseItems(items: seq<OrderItem>): seq<OrderItem> {
    if items == [] then []
    else LicenseItems(items[..|items| - 1])
         + (if items[|items| - 1].productType == "license" then [items[|items| - 1]] else [])
  }

  function Copies(license: License, n: int): seq<License>
    decreases if n > 0 then n else 0
  {
    if n <= 0 then [] else Copies(license, n - 1) + [license]
  }

  /** The licences an order with these licence items is entitled to, in item order. */
  function Expected(order: OrderId, items: seq<OrderItem>): seq<License> {
    if items == [] then []
    else Expected(order, items[..|items| - 1])
         + Copies(License(order, items[|items| - 1].productId), items[|items| - 1].quantity)
  }

  function Entitled(order: Order): seq<License> {
    Expected(order.id, LicenseItems(order.items))
  }

  /** The stored licence rows of one order. */
  function Issued(licences: seq<License>, order: OrderId): seq<License> {
    if licences == [] then []
    else Issued(licences[..|licences| - 1], order)
         + (if licences[|licences| - 1].orderId == order then [licences[|licences| - 1]] else [])
  }

  /** What an order that was once placed is entitled to, whether or not its row is still there. */
  function Due(s: State, order: OrderId): seq<License>
    requires order in s.placed
  {
    Expected(order, LicenseItems(s.placed[order]))
  }

  predicate Complete(s: State, order: OrderId) {
    order in s.placed && Issued(s.licences, order) == Due(s, order)
  }

  function At(s: State, d: DeliveryId): Pc
    requires d in s.deliveries
  {
    s.deliveries[d].pc
  }

  function Goto(s: State, d: DeliveryId, pc: Pc): State
    requires d in s.deliveries
  {
    s.(deliveries := s.deliveries[d := s.deliveries[d].(pc := pc)])
  }

  function EventOf(s: State, d: DeliveryId): Event
    requires d in s.deliveries && s.deliveries[d].event in s.events
  {
    s.events[s.deliveries[d].event]
  }

  predicate Known(s: State, d: DeliveryId) {
    d in s.deliveries && s.deliveries[d].event in s.events
  }

  function SetStatus(s: State, intent: IntentId, status: OrderStatus): State {
    if intent in s.intents && s.intents[intent] in s.orders then
      s.(orders := s.orders[s.intents[intent] := s.orders[s.intents[intent]].(status := status)])
    else s
  }

  /** The payment intent column without the value of one order's row. */
  function Detached(intents: map<IntentId, OrderId>, o: OrderId): map<IntentId, OrderId> {
    map i | i in intents && intents[i] != o :: intents[i]
  }

  function Apply(s: State, step: Step): State {
    match step
    case PlaceOrder(o, items) =>
      if o in s.placed then s
      else s.(placed := s.placed[o := items], orders := s.orders[o := Order(o, items, Pending)])
    case AttachIntent(o, intent) =>
      if o !in s.orders || intent !in s.createdFor || s.createdFor[intent] != o then s
      else s.(intents := Detached(s.intents, o)[intent := o])
    case Receive(d, e) =>
      if d in s.deliveries || e !in s.events then s
      else s.(deliveries := s.deliveries[d := Delivery(e, Received)])
    case Claim(d) =>
      if !Known(s, d) || At(s, d) != Received then s
      else if s.deliveries[d].event in s.claims then Goto(s, d, Skipped)
      else Goto(s.(claims := s.claims + {s.deliveries[d].event}), d, Claimed)
    case Fetch(d) =>
      if !Known(s, d) || At(s, d) != Claimed || !EventOf(s, d).kind.PaymentSucceeded? then s
      else if EventOf(s, d).intent in s.intents && s.intents[EventOf(s, d).intent] in s.orders then
        Goto(s, d, Fetched(s.orders[s.intents[EventOf(s, d).intent]]))
      else Goto(s, d, Failing)
    case CheckExisting(d) =>
      if !Known(s, d) || !At(s, d).Fetched? then s
      else
        var order := At(s, d).order;
        if LicenseItems(order.items) == [] || Issued(s.licences, order.id) != [] then Goto(s, d, Generated(order, []))
        else Goto(s, d, Checked(order))
    case SaveLicences(d) =>
      if !Known(s, d) || !At(s, d).Checked? then s
      else
        var order := At(s, d).order;
        Goto(s.(licences := s.licences + Entitled(order)), d, Generated(order, Entitled(order)))
    case EmitConfirmed(d) =>
      if !Known(s, d) || !At(s, d).Generated? then s
      else
        Goto(s.(queue := s.queue + [ConfirmedMsg(EventOf(s, d).intent)]), d,
             Emitted(At(s, d).order, At(s, d).issued))
    case Notify(d, reachable) =>
      if !Known(s, d) || !At(s, d).Emitted? then s
      else if reachable && EventOf(s, d).intent in s.intents && At(s, d).issued != [] then
        Goto(s.(notices := s.notices + [s.intents[EventOf(s, d).intent]]), d, Finished)
      else Goto(s, d, Finished)
    case EmitOther(d) =>
      if !Known(s, d) || At(s, d) != Claimed || EventOf(s, d).kind.PaymentSucceeded? then s
      else
        var event := EventOf(s, d);
        var message := if event.kind.PaymentFailed? then [FailedMsg(event.intent)]
                       else if event.kind.ChargeRefunded? then [RefundedMsg(event.intent)] else [];
        Goto(s.(queue := s.queue + message), d, Finished)
    case Fail(d) =>
      if !Known(s, d) || !Active(At(s, d)) then s else Goto(s, d, Failing)
    case Release(d) =>
      if !Known(s, d) || At(s, d) != Failing then s
      else Goto(s.(claims := s.claims - {s.deliveries[d].event}), d, Released)
    case Crash(d) =>
      if !Known(s, d) || !(Active(At(s, d)) || At(s, d).Failing?) then s else Goto(s, d, Crashed)
    case Consume =>
      if s.queue == [] then s
      else
        var rest := s.(queue := s.queue[1..]);
        (match s.queue[0]
         case ConfirmedMsg(intent) => SetStatus(rest, intent, Paid)
         case FailedMsg(intent) => SetStatus(rest, intent, Cancelled)
         case RefundedMsg(intent) => SetStatus(rest, intent, Refunded))
    case Lose =>
      if s.queue == [] then s else s.(queue := s.queue[1..])
    case Purge(o) =>
      if o !in s.orders || s.orders[o].status != Pending then s
      else s.(orders := s.orders - {o}, intents := Detached(s.intents, o))
  }

  function Exec(s: State, steps: seq<Step>): State {
    if steps == [] then s else Apply(Exec(s, steps[..|steps| - 1]), steps[|steps| - 1])
  }

  function Start(events: map<EventId, Event>, createdFor: map<IntentId, OrderId>): State {
    State(events, createdFor, map[], {}, [], map[], map[], [], [], map[])
  }

  // ------------------------------------------------------------------------------------------
  // What the run must never break
  // ------------------------------------------------------------------------------------------

  predicate AllOrNothing(s: State) {
    forall o :: o in s.placed ==> Issued(s.licences, o) == [] || Issued(s.licences, o) == Due(s, o)
  }

  predicate OneHolderPerEvent(s: State) {
    forall d, e :: d in s.deliveries && e in s.deliveries && d != e && Holds(At(s, d)) && Holds(At(s, e))
                   ==> s.deliveries[d].event != s.deliveries[e].event
  }

  predicate PaidIsComplete(s: State) {
    forall o :: o in s.orders && s.orders[o].status == Paid ==> Complete(s, o)
  }

  predicate QueuedIsComplete(s: State) {
    forall m :: m in s.queue && m.ConfirmedMsg? ==> m.intent in s.createdFor && Complete(s, s.createdFor[m.intent])
  }

  /** Licences all or nothing, one holder per event, PAID only after generation, one licence mail per order. */
  predicate Safe(s: State) {
    AllOrNothing(s) && OneHolderPerEvent(s) && PaidIsComplete(s) && QueuedIsComplete(s) && NoDuplicates(s.notices)
  }

  /** Stripe raises one `payment_intent.succeeded` event per payment intent. */
  predicate OneEventPerIntent(events: map<EventId, Event>) {
    forall e, f ::
      e in events && f in events && events[e].kind.PaymentSucceeded? && events[f].kind.PaymentSucceeded? && e != f
      ==> events[e].intent != events[f].intent
  }

  /** No two success events are about the same order, be it through one payment intent or through two. */
  predicate OneSuccessPerOrder(events: map<EventId, Event>, createdFor: map<IntentId, OrderId>) {
    forall e, f ::
      e in events && f in events && events[e].kind.PaymentSucceeded? && events[f].kind.PaymentSucceeded? && e != f
      && events[e].intent in createdFor && events[f].intent in createdFor
      ==> createdFor[events[e].intent] != createdFor[events[f].intent]
  }

  // ------------------------------------------------------------------------------------------
  // The inductive invariant
  // ------------------------------------------------------------------------------------------

  predicate OrdersOk(s: State) {
    && (forall o :: o in s.orders ==> s.orders[o].id == o && o in s.placed && s.placed[o] == s.orders[o].items)
    && (forall i :: i in s.intents ==> s.intents[i] in s.orders && i in s.createdFor && s.createdFor[i] == s.intents[i])
    && (forall k :: 0 <= k < |s.licences| ==> s.licences[k].orderId in s.placed)
    && (forall k :: 0 <= k < |s.notices| ==> s.notices[k] in s.placed && Issued(s.licences, s.notices[k]) != [])
  }

  predicate ClaimsOk(s: State) {
    && (forall d :: d in s.deliveries ==> s.deliveries[d].event in s.events)
    && (forall d :: d in s.deliveries && Holds(At(s, d)) ==> s.deliveries[d].event in s.claims)
  }

  /** The delivery works on `order`, for which its event's payment intent was created. */
  predicate WorksOn(s: State, delivery: Delivery, order: Order) {
    && delivery.event in s.events && s.events[delivery.event].kind.PaymentSucceeded?
    && s.events[delivery.event].intent in s.createdFor && s.createdFor[s.events[delivery.event].intent] == order.id
    && order.id in s.placed && s.placed[order.id] == order.items
  }

  predicate DeliveryOk(s: State, delivery: Delivery) {
    match delivery.pc
    case Fetched(order) => WorksOn(s, delivery, order)
    case Checked(order) => WorksOn(s, delivery, order) && Issued(s.licences, order.id) == []
    case Generated(order, issued) =>
      WorksOn(s, delivery, order) && Complete(s, order.id)
      && (issued != [] ==> order.id !in s.notices && Issued(s.licences, order.id) != [])
    case Emitted(order, issued) =>
      WorksOn(s, delivery, order) && Complete(s, order.id)
      && (issued != [] ==> order.id !in s.notices && Issued(s.licences, order.id) != [])
    case _ => true
  }

  predicate DeliveriesOk(s: State) {
    forall d :: d in s.deliveries ==> DeliveryOk(s, s.deliveries[d])
  }

  predicate Inv(s: State) {
    OneSuccessPerOrder(s.events, s.createdFor) && OrdersOk(s) && ClaimsOk(s) && DeliveriesOk(s) && Safe(s)
  }

  // ------------------------------------------------------------------------------------------
  // Facts about licence rows
  // ------------------------------------------------------------------------------------------

  lemma {:induction false} IssuedAppend(a: seq<License>, b: seq<License>, o: OrderId)
    ensures Issued(a + b, o) == Issued(a, o) + Issued(b, o)
  {
    if b == [] {
      assert a + b == a;
    } else {
      var n := |b| - 1;
      IssuedAppend(a, b[..n], o);
      assert (a + b)[..|a + b| - 1] == a + b[..n];
    }
  }

  /** Rows that all belong to one order are that order's rows and nobody else's. */
  lemma {:induction false} IssuedOfOne(rows: seq<License>, owner: OrderId, o: OrderId)
    requires forall k :: 0 <= k < |rows| ==> rows[k].orderId == owner
    ensures Issued(rows, o) == if o == owner then rows else []
  {
    if rows != [] {
      var n := |rows| - 1;
      IssuedOfOne(rows[..n], owner, o);
      assert rows[n].orderId == owner;
      assert rows == rows[..n] + [rows[n]];
      assert Issued(rows, o) == Issued(rows[..n], o) + if o == owner then [rows[n]] else [];
    }
  }

  lemma {:induction false} CopiesAreCopies(license: License, n: int)
    ensures |Copies(license, n)| == Max(0, n)
    ensures forall k :: 0 <= k < |Copies(license, n)| ==> Copies(license, n)[k] == license
    decreases if n > 0 then n else 0
  {
    if n > 0 {
      CopiesAreCopies(license, n - 1);
    }
  }

  lemma {:induction false} ExpectedBelongs(o: OrderId, items: seq<OrderItem>)
    ensures forall k :: 0 <= k < |Expected(o, items)| ==> Expected(o, items)[k].orderId == o
  {
    if items != [] {
      var n := |items| - 1;
      ExpectedBelongs(o, items[..n]);
      CopiesAreCopies(License(o, items[n].productId), items[n].quantity);
    }
  }

  function Quantities(items: seq<OrderItem>): int {
    if items == [] then 0 else Quantities(items[..|items| - 1]) + Max(0, items[|items| - 1].quantity)
  }

  /** An entitlement holds exactly as many licences as the licence items' quantities add up to. */
  lemma {:induction false} EntitledCount(o: OrderId, items: seq<OrderItem>)
    ensures |Expected(o, items)| == Quantities(items)
  {
    if items != [] {
      EntitledCount(o, items[..|items| - 1]);
      CopiesAreCopies(License(o, items[|items| - 1].productId), items[|items| - 1].quantity);
    }
  }

  /** No licence row exists for an order that does not exist yet. */
  lemma {:induction false} NoRowsNoIssued(licences: seq<License>, o: OrderId)
    requires forall k :: 0 <= k < |licences| ==> licences[k].orderId != o
    ensures Issued(licences, o) == []
  {
    if licences != [] {
      NoRowsNoIssued(licences[..|licences| - 1], o);
    }
  }

  /** How many licences of a product an order is to have: the quantities of its licence items for the product. */
  function LicencesOf(items: seq<OrderItem>, p: ProductId): nat {
    if items == [] then 0
    else
      var last := items[|items| - 1];
      LicencesOf(items[..|items| - 1], p)
      + if last.productType == "license" && last.productId == p && last.quantity > 0 then last.quantity else 0
  }

  lemma CopiesCount(license: License, n: int, other: License)
    ensures multiset(Copies(license, n))[other] == if other == license then Max(0, n) else 0
    decreases if n > 0 then n else 0
  {
    if n > 0 {
      CopiesCount(license, n - 1, other);
    }
  }

  /** The entitlement has, of every product, exactly the licences its licence items ask for, and nothing else. */
  lemma {:induction false} ExpectedCounts(o: OrderId, items: seq<OrderItem>, p: ProductId)
    ensures multiset(Expected(o, LicenseItems(items)))[License(o, p)] == LicencesOf(items, p)
  {
    if items != [] {
      var n := |items| - 1;
      var last, before := items[n], LicenseItems(items[..n]);
      ExpectedCounts(o, items[..n], p);
      if last.productType == "license" {
        assert (before + [last])[..|before|] == before;
        CopiesCount(License(o, last.productId), last.quantity, License(o, p));
      } else {
        assert before + [] == before;
      }
    }
  }

  lemma EntitledInRows(o: OrderId, items: seq<OrderItem>)
    ensures forall p :: multiset(Expected(o, LicenseItems(items)))[License(o, p)] == LicencesOf(items, p)
    ensures forall row :: row in Expected(o, LicenseItems(items)) ==> row.orderId == o
  {
    hide Expected, LicenseItems, LicencesOf;
    forall p { ExpectedCounts(o, items, p); }
    ExpectedBelongs(o, LicenseItems(items));
  }

  lemma {:induction false} IssuedCounts(licences: seq<License>, o: OrderId, p: ProductId)
    ensures multiset(Issued(licences, o))[License(o, p)] == multiset(licences)[License(o, p)]
  {
    if licences != [] {
      var n := |licences| - 1;
      IssuedCounts(licences[..n], o, p);
      assert licences == licences[..n] + [licences[n]];
    }
  }

  lemma {:induction false} IssuedNone(licences: seq<License>, o: OrderId)
    requires Issued(licences, o) == []
    ensures forall k :: 0 <= k < |licences| ==> licences[k].orderId != o
  {
    if licences != [] {
      IssuedNone(licences[..|licences| - 1], o);
    }
  }

  /** A complete licence set, row by row: of each product as many rows as the order's licence items ask for. */
  lemma CompleteInRows(s: State, o: OrderId)
    requires Complete(s, o)
    ensures forall p :: multiset(s.licences)[License(o, p)] == LicencesOf(s.placed[o], p)
  {
    hide Issued, Expected, LicenseItems, LicencesOf;
    forall p
      ensures multiset(s.licences)[License(o, p)] == LicencesOf(s.placed[o], p)
    {
      IssuedCounts(s.licences, o, p);
      ExpectedCounts(o, s.placed[o], p);
    }
  }

  // ------------------------------------------------------------------------------------------
  // Every step keeps the invariant
  // ------------------------------------------------------------------------------------------

  lemma PlaceKeepsOrders(s: State, o: OrderId, items: seq<OrderItem>)
    requires OrdersOk(s) && o !in s.placed
    ensures OrdersOk(s.(placed := s.placed[o := items], orders := s.orders[o := Order(o, items, Pending)]))
  {
    hide Issued;
  }

  lemma PlaceKeepsSafe(s: State, o: OrderId, items: seq<OrderItem>)
    requires OrdersOk(s) && Safe(s) && o !in s.placed
    ensures Safe(s.(placed := s.placed[o := items], orders := s.orders[o := Order(o, items, Pending)]))
  {
    hide Issued, Expected, LicenseItems, NoDuplicates, Holds;
    var t := s.(placed := s.placed[o := items], orders := s.orders[o := Order(o, items, Pending)]);
    NoRowsNoIssued(s.licences, o);
    assert AllOrNothing(t) && PaidIsComplete(t) && QueuedIsComplete(t) && OneHolderPerEvent(t);
  }

  lemma PlaceKeepsDelivery(s: State, o: OrderId, items: seq<OrderItem>, order: Order, delivery: Delivery)
    requires DeliveryOk(s, delivery) && o !in s.placed
    ensures DeliveryOk(s.(placed := s.placed[o := items], orders := s.orders[o := order]), delivery)
  {
    hide Issued, Expected, LicenseItems;
  }

  lemma PlaceOrderKeeps(s: State, o: OrderId, items: seq<OrderItem>)
    requires Inv(s)
    ensures Inv(Apply(s, PlaceOrder(o, items)))
  {
    if o !in s.placed {
      hide OrdersOk, Safe, DeliveryOk;
      PlaceKeepsOrders(s, o, items);
      PlaceKeepsSafe(s, o, items);
      var t := Apply(s, PlaceOrder(o, items));
      forall d | d in t.deliveries
        ensures DeliveryOk(t, t.deliveries[d])
      {
        PlaceKeepsDelivery(s, o, items, Order(o, items, Pending), s.deliveries[d]);
      }
    }
  }

  /** Which rows and intent columns are there matters to the lookups only, not to what is promised. */
  lemma RowsKeep(s: State, t: State)
    requires Inv(s) && OrdersOk(t)
    requires t == s.(orders := t.orders, intents := t.intents)
    requires forall o :: o in t.orders ==> o in s.orders && t.orders[o] == s.orders[o]
    ensures Inv(t)
  {
    hide OrdersOk, DeliveryOk, OneSuccessPerOrder, Issued, Expected, LicenseItems, NoDuplicates;
    assert AllOrNothing(t) && OneHolderPerEvent(t) && PaidIsComplete(t) && QueuedIsComplete(t);
    forall d | d in t.deliveries
      ensures DeliveryOk(t, t.deliveries[d])
    {
      DeliveryOkFrame(s, t, s.deliveries[d]);
    }
  }

  /** Attaching a payment intent overwrites the one the order had. */
  lemma AttachIntentKeeps(s: State, o: OrderId, intent: IntentId)
    requires Inv(s)
    ensures Inv(Apply(s, AttachIntent(o, intent)))
  {
    hide Safe, DeliveriesOk, ClaimsOk, OneSuccessPerOrder, Issued;
    if o in s.orders && intent in s.createdFor && s.createdFor[intent] == o {
      RowsKeep(s, Apply(s, AttachIntent(o, intent)));
    }
  }

  /** The cleanup of abandoned orders deletes the row; a delivery that fetched it works on. */
  lemma PurgeKeeps(s: State, o: OrderId)
    requires Inv(s)
    ensures Inv(Apply(s, Purge(o)))
  {
    hide Safe, DeliveriesOk, ClaimsOk, OneSuccessPerOrder, Issued;
    if o in s.orders && s.orders[o].status == Pending {
      RowsKeep(s, Apply(s, Purge(o)));
    }
  }

  /** Whether a delivery is consistent depends on the tables, not on the other program counters. */
  lemma DeliveryOkFrame(s: State, t: State, delivery: Delivery)
    requires DeliveryOk(s, delivery)
    requires t.events == s.events && t.createdFor == s.createdFor && t.placed == s.placed
    requires t.licences == s.licences && t.notices == s.notices
    ensures DeliveryOk(t, delivery)
  {
  }

  /** What the tables promise does not depend on claims, and on deliveries only for who holds a claim. */
  lemma TablesFrame(s: State, t: State)
    requires OrdersOk(s) && Safe(s) && OneHolderPerEvent(t)
    requires t.createdFor == s.createdFor && t.placed == s.placed && t.licences == s.licences
    requires t.orders == s.orders && t.intents == s.intents && t.notices == s.notices && t.queue == s.queue
    ensures OrdersOk(t) && Safe(t)
  {
    hide Issued, Entitled, OneHolderPerEvent;
    assert AllOrNothing(t) && PaidIsComplete(t) && QueuedIsComplete(t);
  }

  /** Steps that only move one delivery's program counter between pcs of the same ownership. */
  lemma MoveKeeps(s: State, d: DeliveryId, pc: Pc)
    requires OneSuccessPerOrder(s.events, s.createdFor) && OrdersOk(s) && ClaimsOk(s) && Safe(s) && Known(s, d)
    requires forall e :: e in s.deliveries && e != d ==> DeliveryOk(s, s.deliveries[e])
    requires Holds(pc) ==> Holds(At(s, d))
    requires DeliveryOk(s, s.deliveries[d].(pc := pc))
    ensures Inv(Goto(s, d, pc))
  {
    hide OrdersOk, AllOrNothing, PaidIsComplete, QueuedIsComplete, NoDuplicates, DeliveryOk, OneSuccessPerOrder, Holds;
    var t := Goto(s, d, pc);
    TablesFrame(s, t);
    forall e | e in t.deliveries
      ensures DeliveryOk(t, t.deliveries[e])
    {
      DeliveryOkFrame(s, t, t.deliveries[e]);
    }
  }

  /** Steps that move one delivery without its owning licence work, and change the claim rows. */
  lemma ClaimsMoveKeeps(s: State, t: State, d: DeliveryId, delivery: Delivery)
    requires Inv(s) && t == s.(claims := t.claims, deliveries := s.deliveries[d := delivery])
    requires delivery.pc.Received? || delivery.pc.Claimed? || delivery.pc.Released?
    requires OneHolderPerEvent(t) && ClaimsOk(t)
    ensures Inv(t)
  {
    hide OrdersOk, AllOrNothing, PaidIsComplete, QueuedIsComplete, NoDuplicates;
    hide OneSuccessPerOrder, OneHolderPerEvent, ClaimsOk;
    hide Complete, WorksOn, Issued, Holds;
    TablesFrame(s, t);
    forall e | e in t.deliveries
      ensures DeliveryOk(t, t.deliveries[e])
    {
      if e != d {
        DeliveryOkFrame(s, t, s.deliveries[e]);
      }
    }
  }

  lemma ClaimKeeps(s: State, d: DeliveryId)
    requires Inv(s)
    ensures Inv(Apply(s, Claim(d)))
  {
    hide OrdersOk, AllOrNothing, PaidIsComplete, QueuedIsComplete, NoDuplicates, OneSuccessPerOrder;
    hide Complete, WorksOn, Issued;
    if Known(s, d) && At(s, d) == Received {
      if s.deliveries[d].event in s.claims {
        MoveKeeps(s, d, Skipped);
      } else {
        ClaimsMoveKeeps(s, Apply(s, Claim(d)), d, Delivery(s.deliveries[d].event, Claimed));
      }
    }
  }

  lemma ReleaseKeeps(s: State, d: DeliveryId)
    requires Inv(s)
    ensures Inv(Apply(s, Release(d)))
  {
    hide OrdersOk, AllOrNothing, PaidIsComplete, QueuedIsComplete, NoDuplicates, OneSuccessPerOrder;
    hide DeliveryOk;
    if Known(s, d) && At(s, d) == Failing {
      ClaimsMoveKeeps(s, Apply(s, Release(d)), d, Delivery(s.deliveries[d].event, Released));
    }
  }

  lemma ReceiveKeeps(s: State, d: DeliveryId, event: EventId)
    requires Inv(s)
    ensures Inv(Apply(s, Receive(d, event)))
  {
    hide OrdersOk, AllOrNothing, PaidIsComplete, QueuedIsComplete, NoDuplicates, OneSuccessPerOrder;
    hide DeliveryOk;
    if d !in s.deliveries && event in s.events {
      ClaimsMoveKeeps(s, Apply(s, Receive(d, event)), d, Delivery(event, Received));
    }
  }

  lemma CheckExistingKeeps(s: State, d: DeliveryId)
    requires Inv(s)
    ensures Inv(Apply(s, CheckExisting(d)))
  {
    if Known(s, d) && At(s, d).Fetched? {
      var order := At(s, d).order;
      assert DeliveryOk(s, s.deliveries[d]);
      assert Due(s, order.id) == Entitled(order);
      if LicenseItems(order.items) == [] || Issued(s.licences, order.id) != [] {
        MoveKeeps(s, d, Generated(order, []));
      } else {
        MoveKeeps(s, d, Checked(order));
      }
    }
  }

  /** Two deliveries that hold a claim never work on the same order. */
  lemma DistinctOrders(s: State, d: DeliveryId, e: DeliveryId, order: Order, other: Order)
    requires Inv(s) && d in s.deliveries && e in s.deliveries && d != e
    requires Holds(At(s, d)) && Holds(At(s, e))
    requires WorksOn(s, s.deliveries[d], order) && WorksOn(s, s.deliveries[e], other)
    ensures order.id != other.id
  {
    if order.id == other.id {
      assert false;
    }
  }

  /** Saving the licences adds to this order's rows and to no other order's. */
  lemma SavedRows(s: State, order: Order, o: OrderId)
    requires Issued(s.licences, order.id) == []
    ensures Issued(s.licences + Entitled(order), o)
            == if o == order.id then Entitled(order) else Issued(s.licences, o)
  {
    hide Issued, Expected, LicenseItems;
    IssuedAppend(s.licences, Entitled(order), o);
    ExpectedBelongs(order.id, LicenseItems(order.items));
    IssuedOfOne(Entitled(order), order.id, o);
  }

  /** Completeness of any order survives a save, whichever order is saved. */
  lemma SaveKeepsComplete(s: State, order: Order, o: OrderId)
    requires Issued(s.licences, order.id) == [] && o in s.placed
    requires order.id in s.placed && s.placed[order.id] == order.items
    ensures var t := s.(licences := s.licences + Entitled(order));
            && (Complete(s, o) || o == order.id ==> Complete(t, o))
            && (Issued(s.licences, o) != [] || o != order.id ==> Issued(t.licences, o) == Issued(s.licences, o))
  {
    SavedRows(s, order, o);
  }

  lemma SaveKeepsSafe(s: State, order: Order)
    requires Safe(s) && Issued(s.licences, order.id) == []
    requires order.id in s.placed && s.placed[order.id] == order.items
    requires forall o :: o in s.orders ==> o in s.placed
    ensures Safe(s.(licences := s.licences + Entitled(order)))
  {
    var t := s.(licences := s.licences + Entitled(order));
    forall o | o in s.placed
      ensures Complete(s, o) ==> Complete(t, o)
      ensures Issued(t.licences, o) == [] || Issued(t.licences, o) == Due(t, o)
    {
      SaveKeepsComplete(s, order, o);
    }
  }

  lemma SaveKeepsOrders(s: State, order: Order)
    requires OrdersOk(s) && Issued(s.licences, order.id) == []
    requires order.id in s.placed && s.placed[order.id] == order.items
    ensures OrdersOk(s.(licences := s.licences + Entitled(order)))
  {
    var t := s.(licences := s.licences + Entitled(order));
    ExpectedBelongs(order.id, LicenseItems(order.items));
    forall k | 0 <= k < |t.notices|
      ensures t.notices[k] in t.placed && Issued(t.licences, t.notices[k]) != []
    {
      SaveKeepsComplete(s, order, s.notices[k]);
    }
  }

  lemma SaveKeepsDelivery(s: State, order: Order, delivery: Delivery)
    requires OrdersOk(s) && Issued(s.licences, order.id) == []
    requires order.id in s.placed && s.placed[order.id] == order.items
    requires DeliveryOk(s, delivery)
    requires delivery.pc.Checked? ==> delivery.pc.order.id != order.id
    ensures DeliveryOk(s.(licences := s.licences + Entitled(order)), delivery)
  {
    match delivery.pc
    case Checked(other) => SaveKeepsComplete(s, order, other.id);
    case Generated(other, _) => SaveKeepsComplete(s, order, other.id);
    case Emitted(other, _) => SaveKeepsComplete(s, order, other.id);
    case _ =>
  }

  lemma SaveKeepsDeliveries(s: State, d: DeliveryId)
    requires Inv(s) && Known(s, d) && At(s, d).Checked?
    ensures var order := At(s, d).order;
            var saved := s.(licences := s.licences + Entitled(order));
            && DeliveryOk(saved, s.deliveries[d].(pc := Generated(order, Entitled(order))))
            && forall e :: e in s.deliveries && e != d ==> DeliveryOk(saved, s.deliveries[e])
  {
    var order := At(s, d).order;
    var saved := s.(licences := s.licences + Entitled(order));
    assert DeliveryOk(s, s.deliveries[d]);
    SaveKeepsComplete(s, order, order.id);
    forall e | e in s.deliveries && e != d
      ensures DeliveryOk(saved, s.deliveries[e])
    {
      assert DeliveryOk(s, s.deliveries[e]);
      if At(s, e).Checked? {
        DistinctOrders(s, d, e, order, At(s, e).order);
      }
      SaveKeepsDelivery(s, order, s.deliveries[e]);
    }
  }

  lemma SaveLicencesKeeps(s: State, d: DeliveryId)
    requires Inv(s)
    ensures Inv(Apply(s, SaveLicences(d)))
  {
    if Known(s, d) && At(s, d).Checked? {
      var order := At(s, d).order;
      assert DeliveryOk(s, s.deliveries[d]);
      SaveKeepsSafe(s, order);
      SaveKeepsOrders(s, order);
      SaveKeepsDeliveries(s, d);
      MoveKeeps(s.(licences := s.licences + Entitled(order)), d, Generated(order, Entitled(order)));
    }
  }

  /** Enqueuing messages is safe when every confirmation among them is for a complete order. */
  lemma SendKeeps(s: State, extra: seq<Message>)
    requires Inv(s)
    requires forall m :: m in extra && m.ConfirmedMsg? ==> m.intent in s.createdFor && Complete(s, s.createdFor[m.intent])
    ensures Inv(s.(queue := s.queue + extra))
  {
    var t := s.(queue := s.queue + extra);
    assert AllOrNothing(t) && PaidIsComplete(t) && OneHolderPerEvent(t);
    assert forall m :: m in t.queue ==> m in s.queue || m in extra;
    forall e | e in t.deliveries
      ensures DeliveryOk(t, t.deliveries[e])
    {
      DeliveryOkFrame(s, t, s.deliveries[e]);
    }
  }

  lemma EmitConfirmedKeeps(s: State, d: DeliveryId)
    requires Inv(s)
    ensures Inv(Apply(s, EmitConfirmed(d)))
  {
    if Known(s, d) && At(s, d).Generated? {
      assert DeliveryOk(s, s.deliveries[d]);
      SendKeeps(s, [ConfirmedMsg(EventOf(s, d).intent)]);
      var sent := s.(queue := s.queue + [ConfirmedMsg(EventOf(s, d).intent)]);
      var next := Emitted(At(s, d).order, At(s, d).issued);
      DeliveryOkFrame(s, sent, s.deliveries[d].(pc := next));
      MoveKeeps(sent, d, next);
    }
  }

  /** After the licence mail of `order`, every other delivery is still consistent. */
  lemma NoticeKeepsDelivery(s: State, d: DeliveryId, e: DeliveryId, order: Order)
    requires Inv(s) && d in s.deliveries && e in s.deliveries && d != e
    requires Holds(At(s, d)) && WorksOn(s, s.deliveries[d], order)
    ensures DeliveryOk(s.(notices := s.notices + [order.id]), s.deliveries[e])
  {
    assert DeliveryOk(s, s.deliveries[e]);
    if At(s, e).Generated? || At(s, e).Emitted? {
      DistinctOrders(s, d, e, order, At(s, e).order);
    }
  }

  /** The tables with one more licence mail, for an order that has licences and no mail yet. */
  lemma NoticeKeepsTables(s: State, o: OrderId)
    requires OrdersOk(s) && Safe(s)
    requires o in s.placed && o !in s.notices && Issued(s.licences, o) != []
    ensures OrdersOk(s.(notices := s.notices + [o])) && Safe(s.(notices := s.notices + [o]))
  {
    var t := s.(notices := s.notices + [o]);
    assert AllOrNothing(t) && PaidIsComplete(t) && QueuedIsComplete(t) && OneHolderPerEvent(t);
  }

  lemma NotifyKeeps(s: State, d: DeliveryId, reachable: bool)
    requires Inv(s)
    ensures Inv(Apply(s, Notify(d, reachable)))
  {
    hide Complete, Issued, Entitled, AllOrNothing, OneHolderPerEvent, PaidIsComplete, QueuedIsComplete;
    if Known(s, d) && At(s, d).Emitted? {
      var order, issued := At(s, d).order, At(s, d).issued;
      assert DeliveryOk(s, s.deliveries[d]);
      MoveKeeps(s, d, Finished);
      if reachable && EventOf(s, d).intent in s.intents && issued != [] {
        var moved := Goto(s, d, Finished);
        var t := Apply(s, Notify(d, reachable));
        assert t == moved.(notices := moved.notices + [order.id]);
        NoticeKeepsTables(moved, order.id);
        forall e | e in t.deliveries
          ensures DeliveryOk(t, t.deliveries[e])
        {
          if e != d {
            NoticeKeepsDelivery(s, d, e, order);
            DeliveryOkFrame(s.(notices := s.notices + [order.id]), t, s.deliveries[e]);
          }
        }
      }
    }
  }

  lemma EmitOtherKeeps(s: State, d: DeliveryId)
    requires Inv(s)
    ensures Inv(Apply(s, EmitOther(d)))
  {
    if Known(s, d) && At(s, d) == Claimed && !EventOf(s, d).kind.PaymentSucceeded? {
      var event := EventOf(s, d);
      var message := if event.kind.PaymentFailed? then [FailedMsg(event.intent)]
                     else if event.kind.ChargeRefunded? then [RefundedMsg(event.intent)] else [];
      SendKeeps(s, message);
      MoveKeeps(s.(queue := s.queue + message), d, Finished);
    }
  }

  lemma StatusKeepsDelivery(s: State, intent: IntentId, status: OrderStatus, delivery: Delivery)
    requires OrdersOk(s) && DeliveryOk(s, delivery)
    ensures DeliveryOk(SetStatus(s, intent, status), delivery)
  {
  }

  lemma StatusKeepsComplete(s: State, intent: IntentId, status: OrderStatus, o: OrderId)
    requires OrdersOk(s)
    ensures Complete(SetStatus(s, intent, status), o) == Complete(s, o)
  {
  }

  lemma StatusKeepsSafe(s: State, intent: IntentId, status: OrderStatus)
    requires OrdersOk(s) && Safe(s)
    requires status == Paid && intent in s.intents ==> Complete(s, s.intents[intent])
    ensures Safe(SetStatus(s, intent, status))
  {
    var t := SetStatus(s, intent, status);
    forall o
      ensures Complete(t, o) == Complete(s, o)
    {
      StatusKeepsComplete(s, intent, status, o);
    }
    assert AllOrNothing(t) && OneHolderPerEvent(t);
  }

  /** Changing one order's status, to PAID only when its licences are complete, keeps the invariant. */
  lemma SetStatusKeeps(s: State, intent: IntentId, status: OrderStatus)
    requires Inv(s)
    requires status == Paid && intent in s.intents ==> Complete(s, s.intents[intent])
    ensures Inv(SetStatus(s, intent, status))
  {
    var t := SetStatus(s, intent, status);
    hide DeliveryOk, Safe;
    StatusKeepsSafe(s, intent, status);
    forall e | e in t.deliveries
      ensures DeliveryOk(t, t.deliveries[e])
    {
      StatusKeepsDelivery(s, intent, status, s.deliveries[e]);
    }
  }

  lemma PopKeeps(s: State)
    requires Inv(s) && s.queue != []
    ensures Inv(s.(queue := s.queue[1..]))
  {
    var t := s.(queue := s.queue[1..]);
    assert AllOrNothing(t) && PaidIsComplete(t);
    assert forall m :: m in t.queue ==> m in s.queue;
    forall e | e in t.deliveries
      ensures DeliveryOk(t, t.deliveries[e])
    {
      assert DeliveryOk(s, s.deliveries[e]);
    }
  }

  lemma ConsumeKeeps(s: State)
    requires Inv(s)
    ensures Inv(Apply(s, Consume))
  {
    if s.queue != [] {
      var rest := s.(queue := s.queue[1..]);
      PopKeeps(s);
      match s.queue[0]
      case ConfirmedMsg(intent) =>
        assert s.queue[0] in s.queue;
        assert Complete(s, s.createdFor[intent]);
        assert Complete(rest, s.createdFor[intent]);
        assert intent in s.intents ==> s.intents[intent] == s.createdFor[intent];
        SetStatusKeeps(rest, intent, Paid);
      case FailedMsg(intent) => SetStatusKeeps(rest, intent, Cancelled);
      case RefundedMsg(intent) => SetStatusKeeps(rest, intent, Refunded);
    }
  }

  lemma FetchKeeps(s: State, d: DeliveryId)
    requires Inv(s)
    ensures Inv(Apply(s, Fetch(d)))
  {
    hide Safe, Complete;
    if Known(s, d) && At(s, d) == Claimed && EventOf(s, d).kind.PaymentSucceeded? {
      MoveKeeps(s, d, At(Apply(s, Fetch(d)), d));
    }
  }

  /** An exception, or the end of the process, anywhere in the handler. */
  lemma FaultKeeps(s: State, d: DeliveryId)
    requires Inv(s)
    ensures Inv(Apply(s, Fail(d))) && Inv(Apply(s, Crash(d)))
  {
    hide Safe, OrdersOk, Complete, WorksOn;
    if Known(s, d) && Active(At(s, d)) { MoveKeeps(s, d, Failing); }
    if Known(s, d) && (Active(At(s, d)) || At(s, d).Failing?) { MoveKeeps(s, d, Crashed); }
  }

  /** A message lost by the broker. */
  lemma LoseKeeps(s: State)
    requires Inv(s)
    ensures Inv(Apply(s, Lose))
  {
    hide Inv;
    if s.queue != [] { PopKeeps(s); }
  }

  /** One step of any delivery, of the order service or of the environment keeps the invariant. */
  lemma StepKeeps(s: State, step: Step)
    requires Inv(s)
    ensures Inv(Apply(s, step))
  {
    hide Inv, Apply;
    match step
    case PlaceOrder(o, items) => PlaceOrderKeeps(s, o, items);
    case AttachIntent(o, intent) => AttachIntentKeeps(s, o, intent);
    case Receive(d, e) => ReceiveKeeps(s, d, e);
    case Claim(d) => ClaimKeeps(s, d);
    case Fetch(d) => FetchKeeps(s, d);
    case CheckExisting(d) => CheckExistingKeeps(s, d);
    case SaveLicences(d) => SaveLicencesKeeps(s, d);
    case EmitConfirmed(d) => EmitConfirmedKeeps(s, d);
    case Notify(d, reachable) => NotifyKeeps(s, d, reachable);
    case EmitOther(d) => EmitOtherKeeps(s, d);
    case Fail(d) => FaultKeeps(s, d);
    case Release(d) => ReleaseKeeps(s, d);
    case Crash(d) => FaultKeeps(s, d);
    case Consume => ConsumeKeeps(s);
    case Lose => LoseKeeps(s);
    case Purge(o) => PurgeKeeps(s, o);
  }

  lemma {:induction false} RunKeeps(s: State, steps: seq<Step>)
    requires Inv(s)
    ensures Inv(Exec(s, steps))
  {
    if steps != [] {
      RunKeeps(s, steps[..|steps| - 1]);
      StepKeeps(Exec(s, steps[..|steps| - 1]), steps[|steps| - 1]);
    }
  }

  // ------------------------------------------------------------------------------------------
  // Main theorem: safe in every interleaving, exactly when success events and orders correspond
  // ------------------------------------------------------------------------------------------

  lemma {:induction false} ExecLast(s: State, steps: seq<Step>, step: Step)
    ensures Exec(s, steps + [step]) == Apply(Exec(s, steps), step)
  {
    assert (steps + [step])[..|steps + [step]| - 1] == steps;
  }

  lemma ExecNothing(s: State)
    ensures Exec(s, []) == s
  {
  }

  lemma {:induction false} ExecConcat(s: State, a: seq<Step>, b: seq<Step>)
    ensures Exec(s, a + b) == Exec(Exec(s, a), b)
  {
    hide Apply;
    if b == [] {
      assert a + b == a;
    } else {
      var n := |b| - 1;
      ExecConcat(s, a, b[..n]);
      assert (a + b)[..|a + b| - 1] == a + b[..n];
    }
  }

  lemma ExecTwo(s: State, first: Step, second: Step)
    ensures Exec(s, [first, second]) == Apply(Apply(s, first), second)
  {
    hide Apply;
    ExecNothing(s);
    ExecLast(s, [], first);
    ExecLast(s, [first], second);
    assert [] + [first] == [first] && [first] + [second] == [first, second];
  }

  const RACED_ITEMS := [OrderItem("p", "license", 1)]

  function RacedOrder(o: OrderId): Order {
    Order(o, RACED_ITEMS, Pending)
  }

  /** One delivery's way to the fetched order, after its intent was attached. */
  function Arrival(d: DeliveryId, e: EventId, o: OrderId, intent: IntentId): seq<Step> {
    [AttachIntent(o, intent), Receive(d, e)] + [Claim(d), Fetch(d)]
  }

  /** Two success events e and f about one order: both deliveries pass the empty check before either saves. */
  function RaceOf(e: EventId, f: EventId, o: OrderId, i: IntentId, j: IntentId): seq<Step> {
    [PlaceOrder(o, RACED_ITEMS)] + Arrival(0, e, o, i) + Arrival(1, f, o, j)
    + [CheckExisting(0), CheckExisting(1)] + [SaveLicences(0), SaveLicences(1)]
  }

  lemma AttachSets(s: State, o: OrderId, intent: IntentId)
    requires o in s.orders && intent in s.createdFor && s.createdFor[intent] == o
    ensures Apply(s, AttachIntent(o, intent)) == s.(intents := Detached(s.intents, o)[intent := o])
  {
  }

  lemma ReceiveOpens(s: State, d: DeliveryId, e: EventId)
    requires d !in s.deliveries && e in s.events
    ensures Apply(s, Receive(d, e)) == s.(deliveries := s.deliveries[d := Delivery(e, Received)])
  {
  }

  lemma ClaimWins(s: State, d: DeliveryId)
    requires Known(s, d) && At(s, d) == Received && s.deliveries[d].event !in s.claims
    ensures Apply(s, Claim(d)) == s.(claims := s.claims + {s.deliveries[d].event},
                                     deliveries := s.deliveries[d := Delivery(s.deliveries[d].event, Claimed)])
  {
  }

  lemma FetchFinds(s: State, d: DeliveryId, o: OrderId)
    requires Known(s, d) && At(s, d) == Claimed && EventOf(s, d).kind.PaymentSucceeded?
    requires EventOf(s, d).intent in s.intents && s.intents[EventOf(s, d).intent] == o && o in s.orders
    ensures Apply(s, Fetch(d))
            == s.(deliveries := s.deliveries[d := Delivery(s.deliveries[d].event, Fetched(s.orders[o]))])
  {
  }

  lemma CheckFindsNone(s: State, d: DeliveryId)
    requires Known(s, d) && At(s, d).Fetched? && s.licences == [] && LicenseItems(At(s, d).order.items) != []
    ensures Apply(s, CheckExisting(d))
            == s.(deliveries := s.deliveries[d := Delivery(s.deliveries[d].event, Checked(At(s, d).order))])
  {
  }

  lemma SaveAppends(s: State, d: DeliveryId)
    requires Known(s, d) && At(s, d).Checked?
    ensures var order := At(s, d).order;
            Apply(s, SaveLicences(d))
            == s.(licences := s.licences + Entitled(order),
                  deliveries := s.deliveries[d := Delivery(s.deliveries[d].event, Generated(order, Entitled(order)))])
  {
  }

  /** Whatever the order's intent was before, a delivery of a success event for it can get to the fetched order. */
  lemma ArrivalFetches(s: State, d: DeliveryId, e: EventId, o: OrderId)
    requires e in s.events && s.events[e].kind.PaymentSucceeded? && s.events[e].intent in s.createdFor
    requires s.createdFor[s.events[e].intent] == o && o in s.orders && d !in s.deliveries && e !in s.claims
    ensures var t := Exec(s, Arrival(d, e, o, s.events[e].intent));
            t == s.(claims := s.claims + {e}, intents := Detached(s.intents, o)[s.events[e].intent := o],
                    deliveries := s.deliveries[d := Delivery(e, Fetched(s.orders[o]))])
  {
    hide Apply, Exec, Detached;
    var intent := s.events[e].intent;
    AttachSets(s, o, intent);
    var s1 := Apply(s, AttachIntent(o, intent));
    ReceiveOpens(s1, d, e);
    var s2 := Apply(s1, Receive(d, e));
    ClaimWins(s2, d);
    var s3 := Apply(s2, Claim(d));
    FetchFinds(s3, d, o);
    assert s3.deliveries[d := Delivery(e, Fetched(s.orders[o]))] == s.deliveries[d := Delivery(e, Fetched(s.orders[o]))];
    ExecTwo(s, AttachIntent(o, intent), Receive(d, e));
    ExecTwo(s2, Claim(d), Fetch(d));
    ExecConcat(s, [AttachIntent(o, intent), Receive(d, e)], [Claim(d), Fetch(d)]);
  }

  lemma RacedItems(o: OrderId)
    ensures LicenseItems(RACED_ITEMS) == RACED_ITEMS && |Entitled(RacedOrder(o))| == 1
  {
    assert LicenseItems(RACED_ITEMS) == LicenseItems([]) + RACED_ITEMS;
    EntitledCount(o, RACED_ITEMS);
    assert Quantities(RACED_ITEMS) == Quantities([]) + 1;
  }

  /** Both deliveries hold the fetched order and no licence is stored: both pass the check. */
  lemma BothPass(s: State, e: EventId, f: EventId, o: OrderId)
    requires e in s.events && f in s.events && s.licences == []
    requires s.deliveries == map[0 := Delivery(e, Fetched(RacedOrder(o))), 1 := Delivery(f, Fetched(RacedOrder(o)))]
    ensures Exec(s, [CheckExisting(0), CheckExisting(1)])
            == s.(deliveries := map[0 := Delivery(e, Checked(RacedOrder(o))), 1 := Delivery(f, Checked(RacedOrder(o)))])
  {
    hide Apply, Exec, LicenseItems, Entitled;
    RacedItems(o);
    CheckFindsNone(s, 0);
    CheckFindsNone(Apply(s, CheckExisting(0)), 1);
    ExecTwo(s, CheckExisting(0), CheckExisting(1));
  }

  lemma BothSave(s: State, e: EventId, f: EventId, o: OrderId)
    requires e in s.events && f in s.events && s.licences == [] && o in s.placed && s.placed[o] == RACED_ITEMS
    requires s.deliveries == map[0 := Delivery(e, Checked(RacedOrder(o))), 1 := Delivery(f, Checked(RacedOrder(o)))]
    ensures !AllOrNothing(Exec(s, [SaveLicences(0), SaveLicences(1)]))
  {
    hide Apply, Exec, LicenseItems, Expected, AllOrNothing;
    SaveAppends(s, 0);
    SaveAppends(Apply(s, SaveLicences(0)), 1);
    ExecTwo(s, SaveLicences(0), SaveLicences(1));
    TwiceIsTooMany(Exec(s, [SaveLicences(0), SaveLicences(1)]), o);
  }

  lemma TwiceIsTooMany(t: State, o: OrderId)
    requires t.licences == Entitled(RacedOrder(o)) + Entitled(RacedOrder(o))
    requires o in t.placed && t.placed[o] == RACED_ITEMS
    ensures !AllOrNothing(t)
  {
    hide LicenseItems, Expected, Issued;
    RacedItems(o);
    ExpectedBelongs(o, LicenseItems(RACED_ITEMS));
    IssuedOfOne(t.licences, o, o);
    assert |Issued(t.licences, o)| == 2 && |Due(t, o)| == 1;
  }

  lemma PlacedFirst(events: map<EventId, Event>, createdFor: map<IntentId, OrderId>, o: OrderId)
    ensures Exec(Start(events, createdFor), [PlaceOrder(o, RACED_ITEMS)])
            == Start(events, createdFor).(placed := map[o := RACED_ITEMS], orders := map[o := RacedOrder(o)])
  {
    ExecNothing(Start(events, createdFor));
    ExecLast(Start(events, createdFor), [], PlaceOrder(o, RACED_ITEMS));
    assert [] + [PlaceOrder(o, RACED_ITEMS)] == [PlaceOrder(o, RACED_ITEMS)];
  }

  /** Two success events about one order, through one intent or two: some interleaving stores two licence sets. */
  lemma RaceDoublesLicences(events: map<EventId, Event>, createdFor: map<IntentId, OrderId>, e: EventId, f: EventId)
    requires e in events && f in events && e != f
    requires events[e].kind.PaymentSucceeded? && events[f].kind.PaymentSucceeded?
    requires events[e].intent in createdFor && events[f].intent in createdFor
    requires createdFor[events[e].intent] == createdFor[events[f].intent]
    ensures !AllOrNothing(Exec(Start(events, createdFor),
                               RaceOf(e, f, createdFor[events[e].intent], events[e].intent, events[f].intent)))
  {
    hide Exec, Apply, AllOrNothing, Arrival, Detached;
    var o, i, j := createdFor[events[e].intent], events[e].intent, events[f].intent;
    var place := [PlaceOrder(o, RACED_ITEMS)];
    var s1 := Exec(Start(events, createdFor), place);
    PlacedFirst(events, createdFor, o);
    ArrivalFetches(s1, 0, e, o);
    var s2 := Exec(s1, Arrival(0, e, o, i));
    ArrivalFetches(s2, 1, f, o);
    var s3 := Exec(s2, Arrival(1, f, o, j));
    BothPass(s3, e, f, o);
    BothSave(Exec(s3, [CheckExisting(0), CheckExisting(1)]), e, f, o);
    ExecConcat(Start(events, createdFor), place, Arrival(0, e, o, i));
    ExecConcat(Start(events, createdFor), place + Arrival(0, e, o, i), Arrival(1, f, o, j));
    ExecConcat(Start(events, createdFor), place + Arrival(0, e, o, i) + Arrival(1, f, o, j),
               [CheckExisting(0), CheckExisting(1)]);
    ExecConcat(Start(events, createdFor),
               place + Arrival(0, e, o, i) + Arrival(1, f, o, j) + [CheckExisting(0), CheckExisting(1)],
               [SaveLicences(0), SaveLicences(1)]);
  }

  /**
   One success event per payment intent is not enough: an order whose intent "i1" was replaced by "i2" while
   the delivery for "i1" was under way gets two licence sets.
   */
  lemma ReattachDoublesLicences()
    ensures var events := map["e1" := Event(PaymentSucceeded, "i1"), "e2" := Event(PaymentSucceeded, "i2")];
            var createdFor := map["i1" := "o", "i2" := "o"];
            && OneEventPerIntent(events)
            && !AllOrNothing(Exec(Start(events, createdFor), RaceOf("e1", "e2", "o", "i1", "i2")))
  {
    hide Exec, AllOrNothing, RaceOf;
    var events := map["e1" := Event(PaymentSucceeded, "i1"), "e2" := Event(PaymentSucceeded, "i2")];
    RaceDoublesLicences(events, map["i1" := "o", "i2" := "o"], "e1", "e2");
  }

  lemma StartIsSafe(events: map<EventId, Event>, createdFor: map<IntentId, OrderId>)
    requires OneSuccessPerOrder(events, createdFor)
    ensures Inv(Start(events, createdFor))
  {
  }

  /** No two success events are about the same order if and only if no interleaving at all can go wrong. */
  lemma SafeInEveryInterleaving(events: map<EventId, Event>, createdFor: map<IntentId, OrderId>)
    ensures OneSuccessPerOrder(events, createdFor) <==> forall steps :: Safe(Exec(Start(events, createdFor), steps))
  {
    hide Exec, AllOrNothing, RaceOf;
    if OneSuccessPerOrder(events, createdFor) {
      StartIsSafe(events, createdFor);
      forall steps
        ensures Safe(Exec(Start(events, createdFor), steps))
      {
        RunKeeps(Start(events, createdFor), steps);
      }
    } else {
      var e, f :| e in events && f in events && events[e].kind.PaymentSucceeded? && events[f].kind.PaymentSucceeded?
                  && e != f && events[e].intent in createdFor && events[f].intent in createdFor
                  && createdFor[events[e].intent] == createdFor[events[f].intent];
      RaceDoublesLicences(events, createdFor, e, f);
      var race := RaceOf(e, f, createdFor[events[e].intent], events[e].intent, events[f].intent);
      assert !Safe(Exec(Start(events, createdFor), race));
    }
  }

  /**
   In the rows: with at most one success event per order, in every reachable state an order ever placed has
   no licence row, or of each product exactly as many as its licence items ask for; a PAID one has the latter.
   */
  lemma LicencesInRows(events: map<EventId, Event>, createdFor: map<IntentId, OrderId>, steps: seq<Step>, o: OrderId)
    requires OneSuccessPerOrder(events, createdFor) && o in Exec(Start(events, createdFor), steps).placed
    ensures var s := Exec(Start(events, createdFor), steps);
            var full := forall p :: multiset(s.licences)[License(o, p)] == LicencesOf(s.placed[o], p);
            && ((forall k :: 0 <= k < |s.licences| ==> s.licences[k].orderId != o) || full)
            && (o in s.orders && s.orders[o].status == Paid ==> full)
  {
    hide Exec, Issued, Due, LicencesOf;
    StartIsSafe(events, createdFor);
    RunKeeps(Start(events, createdFor), steps);
    var s := Exec(Start(events, createdFor), steps);
    if Complete(s, o) {
      CompleteInRows(s, o);
    } else {
      IssuedNone(s.licences, o);
    }
  }

  // ------------------------------------------------------------------------------------------
  // From the queued confirmation to the PAID order
  // ------------------------------------------------------------------------------------------

  /** How many messages the run takes off the queue, consumed or lost. */
  function TakenIn(s: State, steps: seq<Step>): nat {
    if steps == [] then 0
    else
      var n := |steps| - 1;
      TakenIn(s, steps[..n]) + if (steps[n].Consume? || steps[n].Lose?) && Exec(s, steps[..n]).queue != [] then 1 else 0
  }

  lemma TakeStep(s: State, step: Step)
    requires step.Consume? || step.Lose?
    ensures Apply(s, step).queue == if s.queue != [] then s.queue[1..] else []
  {
  }

  lemma SendStep(s: State, step: Step)
    requires !step.Consume? && !step.Lose?
    ensures s.queue <= Apply(s, step).queue
  {
    hide Issued, LicenseItems, Entitled, Detached;
    if step.Claim? || step.Fetch? || step.CheckExisting? || step.SaveLicences? {
    } else if step.EmitConfirmed? || step.EmitOther? {
    } else {
    }
  }

  /** The queue is first in, first out: a message that waits behind n others is first once n were taken. */
  lemma {:induction false} QueueAdvances(s: State, steps: seq<Step>, n: nat)
    requires n < |s.queue| && TakenIn(s, steps) <= n
    ensures n - TakenIn(s, steps) < |Exec(s, steps).queue|
    ensures Exec(s, steps).queue[n - TakenIn(s, steps)] == s.queue[n]
  {
    hide Apply;
    if steps != [] {
      var m := |steps| - 1;
      QueueAdvances(s, steps[..m], n);
      var before := Exec(s, steps[..m]);
      if steps[m].Consume? || steps[m].Lose? {
        TakeStep(before, steps[m]);
      } else {
        SendStep(before, steps[m]);
      }
    }
  }

  /** Consuming a message sets the status it stands for on the order that carries its intent, and nothing else. */
  lemma ConsumeSets(s: State)
    requires s.queue != []
    ensures var t, message := Apply(s, Consume), s.queue[0];
            && t == s.(queue := s.queue[1..], orders := t.orders) && t.orders.Keys == s.orders.Keys
            && forall o :: o in s.orders ==>
                 t.orders[o] == if message.intent in s.intents && s.intents[message.intent] == o
                                then Order(s.orders[o].id, s.orders[o].items,
                                           match message
                                           case ConfirmedMsg(_) => Paid
                                           case FailedMsg(_) => Cancelled
                                           case RefundedMsg(_) => Refunded)
                                else s.orders[o]
  {
  }

  /**
   A confirmation that waits behind n messages, after any run in which these n are taken: consuming it makes
   the order that then carries its intent PAID, with a complete licence set.
   */
  lemma ConfirmationPays(s: State, steps: seq<Step>, n: nat, intent: IntentId, o: OrderId)
    requires Inv(s) && n < |s.queue| && s.queue[n] == ConfirmedMsg(intent) && TakenIn(s, steps) == n
    requires var t := Exec(s, steps); intent in t.intents && t.intents[intent] == o
    ensures var t := Apply(Exec(s, steps), Consume);
            && o in t.orders && t.orders[o].status == Paid
            && o in t.placed && forall p :: multiset(t.licences)[License(o, p)] == LicencesOf(t.placed[o], p)
  {
    hide Exec, Apply, Complete, LicencesOf, TakenIn, AllOrNothing;
    RunKeeps(s, steps);
    QueueAdvances(s, steps, n);
    ConsumeSets(Exec(s, steps));
    StepKeeps(Exec(s, steps), Consume);
    var t := Apply(Exec(s, steps), Consume);
    assert Complete(t, o);
    PaidInRows(t, o);
  }

  lemma PaidInRows(s: State, o: OrderId)
    requires Complete(s, o)
    ensures o in s.placed && forall p :: multiset(s.licences)[License(o, p)] == LicencesOf(s.placed[o], p)
  {
    CompleteInRows(s, o);
  }

  /** An intent that is attached replaces the order's former one; every other row of the column stays. */
  lemma AttachReplaces(s: State, o: OrderId, intent: IntentId)
    requires OrdersOk(s) && o in s.orders && intent in s.createdFor && s.createdFor[intent] == o
    ensures var t := Apply(s, AttachIntent(o, intent));
            && t == s.(intents := t.intents)
            && (forall i :: i in t.intents <==> i == intent || (i in s.intents && s.intents[i] != o))
            && (forall i :: i in t.intents ==> t.intents[i] == if i == intent then o else s.intents[i])
  {
  }

  /** Placing an order adds one pending row with its items; purging takes one pending row and its intent away. */
  lemma PlaceAndPurge(s: State, o: OrderId, items: seq<OrderItem>)
    ensures o !in s.placed ==> Apply(s, PlaceOrder(o, items))
                               == s.(placed := s.placed[o := items], orders := s.orders[o := Order(o, items, Pending)])
    ensures o in s.orders && s.orders[o].status == Pending ==>
              var t := Apply(s, Purge(o));
              && t == s.(orders := t.orders, intents := t.intents) && t.orders == s.orders - {o}
              && (forall i :: i in t.intents <==> i in s.intents && s.intents[i] != o)
              && (forall i :: i in t.intents ==> t.intents[i] == s.intents[i])
    ensures o in s.orders && s.orders[o].status != Pending ==> Apply(s, Purge(o)) == s
  {
  }

  predicate Untouched(s: State, t: State) {
    t.placed == s.placed && t.licences == s.licences
  }

  lemma EntryTouches(s: State, step: Step)
    requires step.Claim? || step.Fetch?
    ensures Untouched(s, Apply(s, step))
  {
  }

  lemma CheckTouches(s: State, d: DeliveryId)
    ensures Untouched(s, Apply(s, CheckExisting(d)))
  {
    hide Issued, LicenseItems;
  }

  lemma SendTouches(s: State, step: Step)
    requires step.EmitConfirmed? || step.EmitOther?
    ensures Untouched(s, Apply(s, step))
  {
  }

  lemma NotifyTouches(s: State, d: DeliveryId, reachable: bool)
    ensures Untouched(s, Apply(s, Notify(d, reachable)))
  {
  }

  lemma FaultTouches(s: State, step: Step)
    requires step.Receive? || step.Fail? || step.Release? || step.Crash?
    ensures Untouched(s, Apply(s, step))
  {
    hide Known;
  }

  lemma RowsTouch(s: State, step: Step)
    requires step.AttachIntent? || step.Consume? || step.Lose? || step.Purge?
    ensures Untouched(s, Apply(s, step))
  {
    hide Detached;
  }

  /** Only placing an order adds to the orders ever placed, and only saving adds licence rows. */
  lemma StepTouches(s: State, step: Step)
    requires !step.PlaceOrder? && !step.SaveLicences?
    ensures Untouched(s, Apply(s, step))
  {
    hide Apply, Untouched;
    if step.Receive? || step.Fail? || step.Release? || step.Crash? {
      FaultTouches(s, step);
    } else if step.AttachIntent? || step.Consume? || step.Lose? || step.Purge? {
      RowsTouch(s, step);
    } else if step.CheckExisting? {
      CheckTouches(s, step.d);
    } else if step.Notify? {
      NotifyTouches(s, step.d, step.reachable);
    } else if step.EmitConfirmed? || step.EmitOther? {
      SendTouches(s, step);
    } else {
      EntryTouches(s, step);
    }
  }

  lemma PlacedStays(s: State, step: Step, o: OrderId)
    requires o in s.placed
    ensures o in Apply(s, step).placed
  {
    if !step.PlaceOrder? && !step.SaveLicences? {
      hide Apply;
      StepTouches(s, step);
    }
  }

  lemma OnlySavesAddLicences(s: State, step: Step)
    ensures Apply(s, step).licences == s.licences
            || (step.SaveLicences? && Known(s, step.d) && At(s, step.d).Checked?)
  {
    if !step.PlaceOrder? && !step.SaveLicences? {
      hide Apply;
      StepTouches(s, step);
    }
  }

  lemma StepKeepsLicences(s: State, step: Step, o: OrderId)
    requires OrdersOk(s) && DeliveriesOk(s) && o in s.placed && Issued(s.licences, o) != []
    ensures o in Apply(s, step).placed && Issued(Apply(s, step).licences, o) == Issued(s.licences, o)
  {
    PlacedStays(s, step, o);
    OnlySavesAddLicences(s, step);
    if step.SaveLicences? && Known(s, step.d) && At(s, step.d).Checked? {
      var order := At(s, step.d).order;
      assert DeliveryOk(s, s.deliveries[step.d]);
      SaveKeepsComplete(s, order, o);
      assert Apply(s, step).licences == s.licences + Entitled(order);
    }
  }

  /** Once an order has its licences, no continuation of the run adds to them or takes from them. */
  lemma {:induction false} LicencesAreFinal(s: State, steps: seq<Step>, o: OrderId)
    requires Inv(s) && o in s.placed && Issued(s.licences, o) != []
    ensures o in Exec(s, steps).placed && Issued(Exec(s, steps).licences, o) == Issued(s.licences, o)
  {
    if steps != [] {
      LicencesAreFinal(s, steps[..|steps| - 1], o);
      RunKeeps(s, steps[..|steps| - 1]);
      StepKeepsLicences(Exec(s, steps[..|steps| - 1]), steps[|steps| - 1], o);
    }
  }

  // ------------------------------------------------------------------------------------------
  // The services that take these steps
  // ------------------------------------------------------------------------------------------

  predicate OfDelivery(step: Step, d: DeliveryId) {
    !step.PlaceOrder? && !step.AttachIntent? && !step.Purge? && !step.Consume? && !step.Lose? && step.d == d
  }

  lemma {:induction false} LicenseItemsTwice(items: seq<OrderItem>)
    ensures LicenseItems(LicenseItems(items)) == LicenseItems(items)
  {
    if items != [] {
      var n := |items| - 1;
      LicenseItemsTwice(items[..n]);
      var rest := LicenseItems(items[..n]);
      if items[n].productType == "license" {
        assert (rest + [items[n]])[..|rest|] == rest;
      } else {
        assert LicenseItems(items) == rest;
      }
    }
  }

  lemma {:induction false} AnyLicenseItem(items: seq<OrderItem>)
    ensures LicenseItems(items) != [] <==> exists k :: 0 <= k < |items| && items[k].productType == "license"
  {
    if items != [] {
      var n := |items| - 1;
      AnyLicenseItem(items[..n]);
      if k :| 0 <= k < n && items[..n][k].productType == "license" {
        assert items[k].productType == "license";
      }
      if k :| 0 <= k < n && items[k].productType == "license" {
        assert items[..n][k].productType == "license";
      }
    }
  }

  /** The licence items ask for what the order asks for. */
  lemma {:induction false} LicencesOfItems(items: seq<OrderItem>, p: ProductId)
    ensures LicencesOf(LicenseItems(items), p) == LicencesOf(items, p)
  {
    if items != [] {
      var n := |items| - 1;
      LicencesOfItems(items[..n], p);
      var rest := LicenseItems(items[..n]);
      if items[n].productType == "license" {
        assert LicenseItems(items) == rest + [items[n]];
        assert (rest + [items[n]])[..|rest|] == rest;
      } else {
        assert LicenseItems(items) == rest;
      }
    }
  }

  lemma QueuedAfterRun(s: State, script: seq<Step>, intent: IntentId)
    requires Inv(s) && ConfirmedMsg(intent) in Exec(s, script).queue
    ensures intent in Exec(s, script).createdFor && Complete(Exec(s, script), Exec(s, script).createdFor[intent])
  {
    RunKeeps(s, script);
  }

  /** A script with one more step, and the state it leads to. */
  ghost function Extended(s0: State, script: seq<Step>, step: Step, t: State): (longer: seq<Step>)
    requires t == Apply(Exec(s0, script), step)
    ensures longer == script + [step] && t == Exec(s0, longer)
  {
    ExecLast(s0, script, step);
    script + [step]
  }

  /** Where an injected failure interrupts the success handler. */
  datatype Fault = NoFault | OrderServiceDown | ReadFails | SaveFails

  /** The payment and order services' tables and queue, seen by one delivery at a time. */
  class Backend {
    const events: map<EventId, Event>
    ghost const createdFor: map<IntentId, OrderId>
    ghost var placed: map<OrderId, seq<OrderItem>>
    var claims: set<EventId>
    var licences: seq<License>
    var orders: map<OrderId, Order>
    var intents: map<IntentId, OrderId>
    var queue: seq<Message>
    var notices: seq<OrderId>
    ghost var deliveries: map<DeliveryId, Delivery>

    ghost function Snapshot(): State
      reads this
    {
      State(events, createdFor, placed, claims, licences, orders, intents, queue, notices, deliveries)
    }

    constructor (events: map<EventId, Event>, ghost createdFor: map<IntentId, OrderId>)
      ensures Snapshot() == Start(events, createdFor)
    {
      this.events, this.createdFor, placed := events, createdFor, map[];
      claims, licences, orders := {}, [], map[];
      intents, queue, notices, deliveries := map[], [], [], map[];
    }

    /** The primary-key insert that decides which delivery processes the event. */
    method TryClaimEvent(event: EventId, ghost d: DeliveryId) returns (claimed: bool)
      requires d in deliveries && deliveries[d] == Delivery(event, Received) && event in events
      modifies `claims, `deliveries
      ensures Snapshot() == Apply(old(Snapshot()), Claim(d))
      ensures claimed <==> event !in old(claims)
      ensures claims == old(claims) + {event}
      ensures d in deliveries && deliveries[d] == Delivery(event, if claimed then Claimed else Skipped)
    {
      claimed := event !in claims;
      claims := claims + {event};
      deliveries := deliveries[d := Delivery(event, if claimed then Claimed else Skipped)];
      assert !claimed ==> claims == old(claims);
    }

    method ReleaseClaim(event: EventId, ghost d: DeliveryId)
      requires d in deliveries && deliveries[d] == Delivery(event, Failing) && event in events
      modifies `claims, `deliveries
      ensures Snapshot() == Apply(old(Snapshot()), Release(d))
      ensures claims == old(claims) - {event}
    {
      claims := claims - {event};
      deliveries := deliveries[d := Delivery(event, Released)];
    }

    /** Builds every licence of every licence item, then stores them in one save. */
    method GenerateForOrder(order: OrderId, items: seq<OrderItem>) returns (issued: seq<License>)
      modifies `licences
      ensures issued == Expected(order, LicenseItems(items))
      ensures licences == old(licences) + issued
      ensures forall p :: multiset(issued)[License(order, p)] == LicencesOf(items, p)
      ensures forall row :: row in issued ==> row.orderId == order
    {
      EntitledInRows(order, items);
      issued := Entitlement(order, items);
      if |issued| > 0 {
        licences := licences + issued;
      }
    }

    /** The nested loop: for every licence item, in order, one licence per unit. */
    static method Entitlement(order: OrderId, items: seq<OrderItem>) returns (issued: seq<License>)
      ensures issued == Expected(order, LicenseItems(items))
    {
      issued := [];
      for n := 0 to |items|
        invariant issued == Expected(order, LicenseItems(items[..n]))
      {
        var item := items[n];
        assert items[..n + 1][..n] == items[..n];
        if item.productType != "license" {
          assert LicenseItems(items[..n + 1]) == LicenseItems(items[..n]);
          continue;
        }
        ghost var before := issued;
        var i := 0;
        while i < item.quantity
          invariant issued == before + Copies(License(order, item.productId), i)
          invariant i == 0 || i <= item.quantity
        {
          issued := issued + [License(order, item.productId)];
          i := i + 1;
        }
        assert issued == before + Copies(License(order, item.productId), item.quantity);
        var chosen := LicenseItems(items[..n]);
        assert LicenseItems(items[..n + 1]) == chosen + [item];
        assert (chosen + [item])[..|chosen|] == chosen;
      }
      assert items[..|items|] == items;
    }

    /** The query by order: exactly the order's rows, in storage order. */
    method FindByOrderId(order: OrderId) returns (rows: seq<License>)
      ensures rows == Issued(licences, order)
      ensures forall row :: row in rows <==> row in licences && row.orderId == order
    {
      rows := [];
      for k := 0 to |licences|
        invariant rows == Issued(licences[..k], order)
        invariant forall row :: row in rows <==> row in licences[..k] && row.orderId == order
      {
        assert licences[..k + 1][..k] == licences[..k];
        if licences[k].orderId == order {
          rows := rows + [licences[k]];
        }
      }
      assert licences[..|licences|] == licences;
    }

    /** Resolves the order of the event's payment intent; a missing order is an exception. */
    method FetchOrder(event: EventId, ghost d: DeliveryId) returns (order: Option<Order>)
      requires event in events && events[event].kind.PaymentSucceeded?
      requires d in deliveries && deliveries[d] == Delivery(event, Claimed)
      modifies `deliveries
      ensures Snapshot() == Apply(old(Snapshot()), Fetch(d))
      ensures d in deliveries
      ensures deliveries[d] == Delivery(event, if order.Some? then Fetched(order.value) else Failing)
      ensures order == if events[event].intent in intents && intents[events[event].intent] in orders
                       then Some(orders[intents[events[event].intent]]) else None
    {
      var intent := events[event].intent;
      if intent in intents && intents[intent] in orders {
        order := Some(orders[intents[intent]]);
        deliveries := deliveries[d := Delivery(event, Fetched(order.value))];
      } else {
        order := None;
        deliveries := deliveries[d := Delivery(event, Failing)];
      }
    }

    /** True when the order has licence items and no licence row yet. */
    method NeedsLicences(event: EventId, order: Order, ghost d: DeliveryId) returns (needed: bool)
      requires event in events && d in deliveries && deliveries[d] == Delivery(event, Fetched(order))
      modifies `deliveries
      ensures Snapshot() == Apply(old(Snapshot()), CheckExisting(d))
      ensures d in deliveries
      ensures deliveries[d] == Delivery(event, if needed then Checked(order) else Generated(order, []))
      ensures needed <==> (exists k :: 0 <= k < |order.items| && order.items[k].productType == "license")
                          && forall row :: row in licences ==> row.orderId != order.id
    {
      AnyLicenseItem(order.items);
      var licenseItems := LicenseItems(order.items);
      needed := false;
      if |licenseItems| > 0 {
        var existing := FindByOrderId(order.id);
        needed := |existing| == 0;
        assert needed || existing[0] in licences;
      }
      deliveries := deliveries[d := Delivery(event, if needed then Checked(order) else Generated(order, []))];
    }

    method StoreLicences(event: EventId, order: Order, ghost d: DeliveryId) returns (issued: seq<License>)
      requires event in events && d in deliveries && deliveries[d] == Delivery(event, Checked(order))
      modifies `licences, `deliveries
      ensures Snapshot() == Apply(old(Snapshot()), SaveLicences(d))
      ensures d in deliveries && deliveries[d] == Delivery(event, Generated(order, issued))
      ensures licences == old(licences) + issued
      ensures forall p :: multiset(issued)[License(order.id, p)] == LicencesOf(order.items, p)
    {
      forall p { LicencesOfItems(order.items, p); }
      issued := GenerateForOrder(order.id, LicenseItems(order.items));
      LicenseItemsTwice(order.items);
      deliveries := deliveries[d := Delivery(event, Generated(order, issued))];
    }

    method ConfirmPayment(event: EventId, order: Order, issued: seq<License>, ghost d: DeliveryId)
      requires event in events && d in deliveries && deliveries[d] == Delivery(event, Generated(order, issued))
      modifies `queue, `deliveries
      ensures Snapshot() == Apply(old(Snapshot()), EmitConfirmed(d))
      ensures d in deliveries && deliveries[d] == Delivery(event, Emitted(order, issued))
      ensures queue == old(queue) + [ConfirmedMsg(events[event].intent)]
    {
      queue := queue + [ConfirmedMsg(events[event].intent)];
      deliveries := deliveries[d := Delivery(event, Emitted(order, issued))];
    }

    /** Resolves the order of the intent again and mails the issued licences when its contact is reachable. */
    method NotifyCustomer(event: EventId, ghost order: Order, issued: seq<License>, reachable: bool, ghost d: DeliveryId)
      requires event in events && d in deliveries && deliveries[d] == Delivery(event, Emitted(order, issued))
      modifies `notices, `deliveries
      ensures Snapshot() == Apply(old(Snapshot()), Notify(d, reachable))
      ensures d in deliveries && deliveries[d] == Delivery(event, Finished)
      ensures notices == old(notices) + if reachable && events[event].intent in intents && issued != []
                                        then [intents[events[event].intent]] else []
    {
      var intent := events[event].intent;
      if reachable && intent in intents && |issued| > 0 {
        notices := notices + [intents[intent]];
      }
      deliveries := deliveries[d := Delivery(event, Finished)];
    }

    ghost method Accept(event: EventId, d: DeliveryId)
      requires event in events && d !in deliveries
      modifies `deliveries
      ensures Snapshot() == Apply(old(Snapshot()), Receive(d, event))
      ensures d in deliveries && deliveries[d] == Delivery(event, Received)
    {
      deliveries := deliveries[d := Delivery(event, Received)];
    }

    /** An injected exception in the middle of the handler. */
    ghost method Throw(event: EventId, d: DeliveryId)
      requires event in events && d in deliveries && deliveries[d].event == event && Active(deliveries[d].pc)
      modifies `deliveries
      ensures Snapshot() == Apply(old(Snapshot()), Fail(d))
      ensures d in deliveries && deliveries[d] == Delivery(event, Failing)
    {
      deliveries := deliveries[d := Delivery(event, Failing)];
    }

    /** Skips orders without licence items and orders that already have licences. */
    method GenerateLicensesForOrder(event: EventId, order: Order, fault: Fault, ghost d: DeliveryId)
      returns (threw: bool, issued: seq<License>, ghost script: seq<Step>)
      requires event in events && d in deliveries && deliveries[d] == Delivery(event, Fetched(order))
      modifies `licences, `deliveries
      ensures Snapshot() == Exec(old(Snapshot()), script)
      ensures forall k :: 0 <= k < |script| ==> OfDelivery(script[k], d)
      ensures d in deliveries && deliveries[d] == Delivery(event, if threw then Failing else Generated(order, issued))
      ensures fault.NoFault? ==> !threw
    {
      hide Apply, Exec, Extended;
      ghost var s0 := Snapshot();
      ExecNothing(s0);
      issued, threw, script := [], false, [];
      if fault.ReadFails? {
        Throw(event, d);
        script := Extended(s0, script, Fail(d), Snapshot());
        return true, [], script;
      }
      var needed := NeedsLicences(event, order, d);
      script := Extended(s0, script, CheckExisting(d), Snapshot());
      if !needed {
        return;
      }
      if fault.SaveFails? {
        Throw(event, d);
        script := Extended(s0, script, Fail(d), Snapshot());
        return true, [], script;
      }
      issued := StoreLicences(event, order, d);
      script := Extended(s0, script, SaveLicences(d), Snapshot());
    }

    /** The body of the success handler; `threw` says that an exception left it. */
    method HandlePaymentIntentSucceeded(event: EventId, fault: Fault, reachable: bool, ghost d: DeliveryId)
      returns (threw: bool, ghost script: seq<Step>)
      requires event in events && events[event].kind.PaymentSucceeded?
      requires d in deliveries && deliveries[d] == Delivery(event, Claimed)
      modifies `licences, `queue, `notices, `deliveries
      ensures Snapshot() == Exec(old(Snapshot()), script)
      ensures forall k :: 0 <= k < |script| ==> OfDelivery(script[k], d)
      ensures d in deliveries && deliveries[d] == Delivery(event, if threw then Failing else Finished)
      ensures queue == old(queue) + if threw then [] else [ConfirmedMsg(events[event].intent)]
      ensures var found := events[event].intent in intents && intents[events[event].intent] in orders;
              (found && fault.NoFault? ==> !threw) && (!found ==> threw)
    {
      hide Apply, Exec, Extended;
      ghost var s0 := Snapshot();
      ExecNothing(s0);
      script := [];
      if fault.OrderServiceDown? {
        Throw(event, d);
        script := Extended(s0, script, Fail(d), Snapshot());
        return true, script;
      }
      var order := FetchOrder(event, d);
      script := Extended(s0, script, Fetch(d), Snapshot());
      if order.None? {
        return true, script;
      }
      var failed, issued, steps := GenerateLicensesForOrder(event, order.value, fault, d);
      ExecConcat(s0, script, steps);
      script := script + steps;
      if failed {
        return true, script;
      }
      ConfirmPayment(event, order.value, issued, d);
      script := Extended(s0, script, EmitConfirmed(d), Snapshot());
      NotifyCustomer(event, order.value, issued, reachable, d);
      script := Extended(s0, script, Notify(d, reachable), Snapshot());
      threw := false;
    }

    /** Event types other than a success: at most one message, then done. */
    method HandleOtherEvent(event: EventId, ghost d: DeliveryId)
      requires event in events && !events[event].kind.PaymentSucceeded?
      requires d in deliveries && deliveries[d] == Delivery(event, Claimed)
      modifies `queue, `deliveries
      ensures Snapshot() == Apply(old(Snapshot()), EmitOther(d))
      ensures d in deliveries && deliveries[d] == Delivery(event, Finished)
      ensures events[event].kind == PaymentFailed ==> queue == old(queue) + [FailedMsg(events[event].intent)]
      ensures events[event].kind == ChargeRefunded ==> queue == old(queue) + [RefundedMsg(events[event].intent)]
      ensures events[event].kind == OtherEvent ==> queue == old(queue)
    {
      match events[event].kind {
        case PaymentFailed => queue := queue + [FailedMsg(events[event].intent)];
        case ChargeRefunded => queue := queue + [RefundedMsg(events[event].intent)];
        case _ =>
      }
      deliveries := deliveries[d := Delivery(event, Finished)];
      assert queue + [] == queue;
    }

    /** The handler of the event's type. */
    method Route(event: EventId, fault: Fault, reachable: bool, ghost d: DeliveryId)
      returns (threw: bool, ghost script: seq<Step>)
      requires event in events && d in deliveries && deliveries[d] == Delivery(event, Claimed)
      modifies `licences, `queue, `notices, `deliveries
      ensures Snapshot() == Exec(old(Snapshot()), script)
      ensures forall k :: 0 <= k < |script| ==> OfDelivery(script[k], d)
      ensures d in deliveries && deliveries[d] == Delivery(event, if threw then Failing else Finished)
      ensures queue == old(queue) + match events[event].kind
                                    case PaymentSucceeded => if threw then [] else [ConfirmedMsg(events[event].intent)]
                                    case PaymentFailed => [FailedMsg(events[event].intent)]
                                    case ChargeRefunded => [RefundedMsg(events[event].intent)]
                                    case OtherEvent => []
      ensures !events[event].kind.PaymentSucceeded? ==> !threw && licences == old(licences)
      ensures events[event].kind.PaymentSucceeded? ==>
                var found := events[event].intent in intents && intents[events[event].intent] in orders;
                (found && fault.NoFault? ==> !threw) && (!found ==> threw)
    {
      hide Apply, Exec, Extended;
      if events[event].kind.PaymentSucceeded? {
        threw, script := HandlePaymentIntentSucceeded(event, fault, reachable, d);
      } else {
        ghost var s0 := Snapshot();
        ExecNothing(s0);
        HandleOtherEvent(event, d);
        script := Extended(s0, [], EmitOther(d), Snapshot());
        threw := false;
      }
    }

    /**
     A whole delivery, uninterrupted: it is a run of the step machine by this delivery alone, a failed
     one gives its claim back, and a successful first delivery of a success event leaves a complete
     licence set and a queued confirmation.
     */
    method HandleWebhookEvent(event: EventId, fault: Fault, reachable: bool, ghost d: DeliveryId)
      returns (threw: bool, ghost script: seq<Step>)
      requires event in events && d !in deliveries
      modifies this
      ensures Snapshot() == Exec(old(Snapshot()), script)
      ensures forall k :: 0 <= k < |script| ==> OfDelivery(script[k], d)
      ensures claims == if threw then old(claims) else old(claims) + {event}
      ensures event in old(claims) ==> !threw && licences == old(licences) && queue == old(queue)
      ensures events[event].kind.PaymentSucceeded? && event !in old(claims) && !threw && Inv(old(Snapshot()))
              ==> events[event].intent in createdFor && queue == old(queue) + [ConfirmedMsg(events[event].intent)]
                  && Complete(Snapshot(), createdFor[events[event].intent])
                  && var o := createdFor[events[event].intent];
                     forall p :: multiset(licences)[License(o, p)] == LicencesOf(placed[o], p)
      ensures event !in old(claims) ==>
                var found := events[event].intent in intents && intents[events[event].intent] in orders;
                (threw ==> events[event].kind.PaymentSucceeded? && !(found && fault.NoFault?))
                && (events[event].kind.PaymentSucceeded? && !found ==> threw)
    {
      hide Apply, Exec, Extended, Inv, Complete, LicencesOf;
      ghost var s0 := Snapshot();
      ExecNothing(s0);
      Accept(event, d);
      script := Extended(s0, [], Receive(d, event), Snapshot());
      var claimed := TryClaimEvent(event, d);
      script := Extended(s0, script, Claim(d), Snapshot());
      if !claimed {
        return false, script;
      }
      ghost var steps;
      threw, steps := Route(event, fault, reachable, d);
      ExecConcat(s0, script, steps);
      script := script + steps;
      if threw {
        ReleaseClaim(event, d);
        script := Extended(s0, script, Release(d), Snapshot());
      }
      if events[event].kind.PaymentSucceeded? && !threw && Inv(s0) {
        assert ConfirmedMsg(events[event].intent) in queue;
        QueuedAfterRun(s0, script, events[event].intent);
        PaidInRows(Snapshot(), createdFor[events[event].intent]);
      }
    }

    /** The order service's consumer: PAYMENT.CONFIRMED sets PAID, FAILED cancels, REFUNDED refunds. */
    method ConsumeOrderMessage()
      modifies `orders, `queue
      ensures Snapshot() == Apply(old(Snapshot()), Consume)
      ensures old(queue) != [] ==> queue == old(queue)[1..]
      ensures old(queue) != [] ==>
                var message := old(queue)[0];
                if message.intent in intents && intents[message.intent] in old(orders) then
                  var o := intents[message.intent];
                  orders == old(orders)[o := old(orders)[o].(status := match message
                                                                       case ConfirmedMsg(_) => Paid
                                                                       case FailedMsg(_) => Cancelled
                                                                       case RefundedMsg(_) => Refunded)]
                else orders == old(orders)
    {
      if |queue| > 0 {
        var message := queue[0];
        queue := queue[1..];
        if message.intent in intents && intents[message.intent] in orders {
          var order := orders[intents[message.intent]];
          match message {
            case ConfirmedMsg(_) => order := order.(status := Paid);
            case FailedMsg(_) => order := order.(status := Cancelled);
            case RefundedMsg(_) => order := order.(status := Refunded);
          }
          orders := orders[intents[message.intent] := order];
        }
      }
    }
  }
}
