/** The deterministic in-memory venue (adapters/fakebroker/fakebroker.go). It can be told
    to fail in each of the ways the platform must survive; whatever it is told, one client
    order id never becomes two orders, and every call that arrives is counted. */
module FakeBroker {
  import opened Wrappers
  import opened Broker
  import Decimal

  datatype Fault =
    | NoFault
    | TimeoutBeforeReceipt
    | TimeoutAfterReceipt
    | RejectOrder
    | PartialFill
    | FillAfterLocalTimeout
    | StaleStatus
    | Unreconcilable
    | CancelRace
    | Expire

  datatype OrderRequest = OrderRequest(clientOrderID: string, quantity: Option<real>)

  /** Everything the venue holds. */
  datatype Book = Book(
    orders: map<string, BrokerOrder>,
    faults: map<string, Fault>,
    submissions: map<string, nat>,
    next: nat)

  function FaultOf(b: Book, coid: string): Fault {
    if coid in b.faults then b.faults[coid] else NoFault
  }

  function Submissions(b: Book, coid: string): nat {
    if coid in b.submissions then b.submissions[coid] else 0
  }

  function FilledPart(req: OrderRequest, fraction: real): real {
    (match req.quantity case Some(q) => q case None => 100.0) * fraction
  }

  function BrokerID(n: nat): string {
    "fake-" + Decimal.Padded(n, 6)
  }

  /** The order a venue opens for a request under a fault. */
  function NewOrder(req: OrderRequest, fault: Fault, n: nat): BrokerOrder {
    var base := BrokerOrder(req.clientOrderID, BrokerID(n), ExecutionState.Accepted, 0.0, "");
    match fault
    case RejectOrder => base.(state := ExecutionState.Rejected, rejectReason := "insufficient buying power")
    case PartialFill => base.(state := ExecutionState.PartiallyFilled, filledQuantity := FilledPart(req, 0.4))
    case FillAfterLocalTimeout => base.(state := ExecutionState.Filled, filledQuantity := FilledPart(req, 1.0))
    case Expire => base.(state := ExecutionState.Expired)
    case _ => base
  }

  predicate LosesAnswer(f: Fault) {
    f.TimeoutAfterReceipt? || f.FillAfterLocalTimeout? || f.Unreconcilable?
  }

  function SubmitStep(b: Book, req: OrderRequest): (Book, Answer) {
    var coid := req.clientOrderID;
    if coid == "" then
      (b, Failed("client order id is required"))
    else
      var counted := b.(submissions := b.submissions[coid := Submissions(b, coid) + 1]);
      var fault := FaultOf(b, coid);
      if coid in b.orders then
        (counted, if fault.TimeoutAfterReceipt? || fault.TimeoutBeforeReceipt? then Timeout else Order(b.orders[coid]))
      else if fault.TimeoutBeforeReceipt? then
        (counted, Timeout)
      else
        var order := NewOrder(req, fault, b.next + 1);
        (counted.(orders := b.orders[coid := order], next := b.next + 1),
         if LosesAnswer(fault) then Timeout else Order(order))
  }

  function Stale(o: BrokerOrder): BrokerOrder {
    o.(state := ExecutionState.Accepted, filledQuantity := 0.0)
  }

  function LookUp(b: Book, coid: string): Answer {
    var fault := FaultOf(b, coid);
    if fault.Unreconcilable? then Timeout
    else if coid !in b.orders then NotFound
    else if fault.StaleStatus? then Order(Stale(b.orders[coid]))
    else Order(b.orders[coid])
  }

  datatype CancelAnswer = CancelledOrder | NoSuchOrder | Refused

  function CancelStep(b: Book, coid: string): (Book, CancelAnswer) {
    if coid !in b.orders then
      (b, NoSuchOrder)
    else if FaultOf(b, coid).CancelRace? then
      (b.(orders := b.orders[coid := b.orders[coid].(state := ExecutionState.Filled)]), Refused)
    else if b.orders[coid].state.Terminal() then
      (b, Refused)
    else
      (b.(orders := b.orders[coid := b.orders[coid].(state := ExecutionState.Cancelled)]), CancelledOrder)
  }

  ghost predicate FiledByClientID(b: Book) {
    forall coid :: coid in b.orders ==> b.orders[coid].clientOrderID == coid && coid != "" && Submissions(b, coid) >= 1
  }

  /** The order carries one of the identifiers issued so far. */
  ghost predicate Issued(o: BrokerOrder, next: nat) {
    exists n :: 1 <= n <= next && o.brokerOrderID == BrokerID(n)
  }

  ghost predicate IDsIssued(b: Book) {
    forall coid :: coid in b.orders ==> Issued(b.orders[coid], b.next)
  }

  ghost predicate IDsDistinct(b: Book) {
    forall a, c :: a in b.orders && c in b.orders && b.orders[a].brokerOrderID == b.orders[c].brokerOrderID ==> a == c
  }

  /** Orders are filed under their own client order id, each was submitted, and the venue's
      identifiers are distinct and come from the counter. */
  ghost predicate Orderly(b: Book) {
    FiledByClientID(b) && IDsIssued(b) && IDsDistinct(b)
  }

  lemma BrokerIDInjective(m: nat, n: nat)
    requires BrokerID(m) == BrokerID(n)
    ensures m == n
  {
    assert BrokerID(m)[5..] == Decimal.Padded(m, 6) && BrokerID(n)[5..] == Decimal.Padded(n, 6);
    Decimal.ValueOfPadded(m, 6);
    Decimal.ValueOfPadded(n, 6);
  }

  lemma FreshID(o: BrokerOrder, next: nat)
    requires Issued(o, next)
    ensures Issued(o, next + 1) && o.brokerOrderID != BrokerID(next + 1)
  {
    var n :| 1 <= n <= next && o.brokerOrderID == BrokerID(n);
    if BrokerID(n) == BrokerID(next + 1) {
      BrokerIDInjective(n, next + 1);
    }
  }

  lemma OpenKeepsOrderly(b: Book, coid: string, order: BrokerOrder)
    requires Orderly(b) && coid !in b.orders && coid != "" && Submissions(b, coid) >= 1
    requires order.clientOrderID == coid && order.brokerOrderID == BrokerID(b.next + 1)
    ensures Orderly(b.(orders := b.orders[coid := order], next := b.next + 1))
  {
    var b' := b.(orders := b.orders[coid := order], next := b.next + 1);
    forall a | a in b'.orders
      ensures Issued(b'.orders[a], b'.next) && (a != coid ==> b'.orders[a].brokerOrderID != order.brokerOrderID)
    {
      if a != coid {
        FreshID(b.orders[a], b.next);
      } else {
        assert 1 <= b'.next <= b'.next;
      }
    }
  }

  lemma CountKeepsOrderly(b: Book, coid: string)
    requires Orderly(b)
    ensures Orderly(b.(submissions := b.submissions[coid := Submissions(b, coid) + 1]))
  {
  }

  lemma ReceivedKeepsOrderly(b: Book, req: OrderRequest)
    requires Orderly(b) && req.clientOrderID != "" && req.clientOrderID !in b.orders && Submissions(b, req.clientOrderID) >= 1
    ensures var order := NewOrder(req, FaultOf(b, req.clientOrderID), b.next + 1);
      Orderly(b.(orders := b.orders[req.clientOrderID := order], next := b.next + 1))
  {
    OpenKeepsOrderly(b, req.clientOrderID, NewOrder(req, FaultOf(b, req.clientOrderID), b.next + 1));
  }

  lemma SubmitKeepsOrderly(b: Book, req: OrderRequest)
    requires Orderly(b)
    ensures Orderly(SubmitStep(b, req).0)
  {
    var coid := req.clientOrderID;
    if coid != "" {
      CountKeepsOrderly(b, coid);
      var counted := b.(submissions := b.submissions[coid := Submissions(b, coid) + 1]);
      if coid !in b.orders && !FaultOf(b, coid).TimeoutBeforeReceipt? {
        ReceivedKeepsOrderly(counted, req);
        assert SubmitStep(b, req).0 == counted.(orders := b.orders[coid := NewOrder(req, FaultOf(b, coid), b.next + 1)], next := b.next + 1);
      } else {
        assert SubmitStep(b, req).0 == counted;
      }
    }
  }

  /** Cancelling changes at most the state of one order. */
  lemma CancelKeepsOrderly(b: Book, coid: string)
    requires Orderly(b)
    ensures Orderly(CancelStep(b, coid).0)
    ensures CancelStep(b, coid).0.submissions == b.submissions
    ensures coid in b.orders && b.orders[coid].state.Terminal() && !FaultOf(b, coid).CancelRace? ==> CancelStep(b, coid).0 == b
  {
  }

  /** Any number of submissions of one client order id leaves at most one order, which no
      later submission changes, while the counter sees every one of them. */
  lemma SubmitNeverDuplicates(b: Book, req: OrderRequest, other: string)
    requires Orderly(b) && req.clientOrderID != ""
    ensures var (b', answer) := SubmitStep(b, req);
      && Submissions(b', req.clientOrderID) == Submissions(b, req.clientOrderID) + 1
      && (other != req.clientOrderID ==> Submissions(b', other) == Submissions(b, other))
      && b.orders.Keys <= b'.orders.Keys <= b.orders.Keys + {req.clientOrderID}
      && (other in b.orders ==> b'.orders[other] == b.orders[other])
  {
  }

  /** What a timeout hides: the order exists exactly when it existed before or the request
      was received, and asking afterwards tells the two apart unless lookups fail too. */
  lemma TimeoutIsAmbiguous(b: Book, req: OrderRequest)
    requires Orderly(b) && req.clientOrderID != ""
    requires SubmitStep(b, req).1.Timeout?
    ensures var (b', _) := SubmitStep(b, req);
      var coid := req.clientOrderID;
      && (coid in b'.orders <==> coid in b.orders || !FaultOf(b, coid).TimeoutBeforeReceipt?)
      && (!FaultOf(b, coid).Unreconcilable? ==>
            if coid in b'.orders then LookUp(b', coid) == Order(b'.orders[coid]) else LookUp(b', coid) == NotFound)
  {
  }

  /** What a first submission leaves and answers, by the fault injected: nothing before
      receipt; otherwise one order in the state the fault names, filled as far as it says, and
      a timeout for the three faults that lose the answer. */
  lemma FirstSubmission(b: Book, req: OrderRequest)
    requires req.clientOrderID != "" && req.clientOrderID !in b.orders
    ensures var coid := req.clientOrderID; var fault := if coid in b.faults then b.faults[coid] else NoFault;
      var size := if req.quantity.Some? then req.quantity.value else 100.0;
      var (b', answer) := SubmitStep(b, req);
      && (coid in b'.orders <==> fault != TimeoutBeforeReceipt)
      && (coid in b'.orders ==>
            var o := b'.orders[coid];
            && o.clientOrderID == coid && o.brokerOrderID == BrokerID(b.next + 1)
            && (o.state == ExecutionState.Rejected <==> fault == RejectOrder)
            && (o.state == ExecutionState.PartiallyFilled <==> fault == PartialFill)
            && (o.state == ExecutionState.Filled <==> fault == FillAfterLocalTimeout)
            && (o.state == ExecutionState.Expired <==> fault == Fault.Expire)
            && (o.state == ExecutionState.Accepted <==> fault !in {RejectOrder, PartialFill, FillAfterLocalTimeout, Fault.Expire})
            && o.filledQuantity == (if fault == PartialFill then size * 0.4 else if fault == FillAfterLocalTimeout then size else 0.0)
            && (o.rejectReason == "" <==> fault != RejectOrder))
      && answer == (if fault in {TimeoutBeforeReceipt, TimeoutAfterReceipt, FillAfterLocalTimeout, Unreconcilable} then Timeout
                    else Order(b'.orders[coid]))
  {
    assert "insufficient buying power" != "";
  }

  /** A cancellation succeeds exactly on an open order that is not being filled; then it is
      cancelled and otherwise as it was. One that loses the race is filled. */
  lemma CancelMeans(b: Book, coid: string)
    ensures var (b', answer) := CancelStep(b, coid);
      var racing := coid in b.faults && b.faults[coid] == CancelRace;
      && (answer == NoSuchOrder <==> coid !in b.orders)
      && (answer == CancelledOrder <==> coid in b.orders && !racing && !b.orders[coid].state.Terminal())
      && (answer == CancelledOrder ==> b'.orders == b.orders[coid := b.orders[coid].(state := ExecutionState.Cancelled)])
      && (coid in b.orders && racing ==> b'.orders == b.orders[coid := b.orders[coid].(state := ExecutionState.Filled)])
      && (answer != CancelledOrder && !racing ==> b' == b)
  {
  }

  /** The venue as the object an adapter's caller holds. */
  class Venue {
    var orders: map<string, BrokerOrder>
    var faults: map<string, Fault>
    var submissions: map<string, nat>
    var seqNo: nat

    function State(): Book
      reads this
    {
      Book(orders, faults, submissions, seqNo)
    }

    constructor ()
      ensures State() == Book(map[], map[], map[], 0)
    {
      orders, faults, submissions, seqNo := map[], map[], map[], 0;
    }

    method InjectFault(coid: string, f: Fault)
      modifies this`faults
      ensures faults == old(faults)[coid := f]
    {
      faults := faults[coid := f];
    }

    method SubmitOrder(req: OrderRequest) returns (answer: Answer)
      modifies this
      ensures (State(), answer) == SubmitStep(old(State()), req)
    {
      var coid := req.clientOrderID;
      if coid == "" { return Failed("client order id is required"); }
      submissions := submissions[coid := (if coid in submissions then submissions[coid] else 0) + 1];
      var fault := if coid in faults then faults[coid] else NoFault;
      if coid in orders {
        if fault.TimeoutAfterReceipt? || fault.TimeoutBeforeReceipt? { return Timeout; }
        return Order(orders[coid]);
      }
      if fault.TimeoutBeforeReceipt? { return Timeout; }
      seqNo := seqNo + 1;
      var order := BrokerOrder(coid, BrokerID(seqNo), ExecutionState.Accepted, 0.0, "");
      match fault {
        case RejectOrder => order := order.(state := ExecutionState.Rejected, rejectReason := "insufficient buying power");
        case PartialFill => order := order.(state := ExecutionState.PartiallyFilled, filledQuantity := FilledPart(req, 0.4));
        case FillAfterLocalTimeout => order := order.(state := ExecutionState.Filled, filledQuantity := FilledPart(req, 1.0));
        case Expire => order := order.(state := ExecutionState.Expired);
        case _ =>
      }
      orders := orders[coid := order];
      if LosesAnswer(fault) { return Timeout; }
      return Order(order);
    }

    method GetOrder(coid: string) returns (answer: Answer)
      ensures answer == LookUp(State(), coid)
    {
      var fault := if coid in faults then faults[coid] else NoFault;
      if fault.Unreconcilable? { return Timeout; }
      if coid !in orders { return NotFound; }
      if fault.StaleStatus? { return Order(Stale(orders[coid])); }
      return Order(orders[coid]);
    }

    method CancelOrder(coid: string) returns (answer: CancelAnswer)
      modifies this`orders
      ensures (State(), answer) == CancelStep(old(State()), coid)
    {
      if coid !in orders { return NoSuchOrder; }
      if coid in faults && faults[coid].CancelRace? {
        orders := orders[coid := orders[coid].(state := ExecutionState.Filled)];
        return Refused;
      }
      if orders[coid].state.Terminal() { return Refused; }
      orders := orders[coid := orders[coid].(state := ExecutionState.Cancelled)];
      return CancelledOrder;
    }
  }
}
