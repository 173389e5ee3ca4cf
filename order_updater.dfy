/** Application.Orders.OrderUpdater: replaces a stored order's customer fields and line items
    with those of the request, commits them, and then applies the request's discount code. As
    written, the discount is applied after the only save, so what it changes is answered to the
    caller but never committed; the version that applies it before the save is modelled beside
    it. */
module OrderUpdater {
  import opened Common
  import opened Domain
  import opened Dtos
  import opened Persistence
  import opened DiscountCalculator

  const ValidationFailedMessage := "Validation Failed"
  const OrderNotFound: Failure := NotFound("Order not found")

  /** A request Validate finds nothing wrong with. The checks are IsNullOrEmpty, so a name of
      spaces passes. */
  predicate AcceptsUpdate(request: OrderDto)
  {
    !IsNullOrEmpty(request.firstName) && !IsNullOrEmpty(request.lastName)
    && !IsNullOrEmpty(request.address) && request.lineItems != []
  }

  /** The map Validate builds: one upper-case key per failed check, with its message. */
  predicate IsUpdateErrorMap(request: OrderDto, errors: map<string, string>)
  {
    && ("FIRST NAME" in errors <==> IsNullOrEmpty(request.firstName))
    && ("LAST NAME" in errors <==> IsNullOrEmpty(request.lastName))
    && ("ADDRESS" in errors <==> IsNullOrEmpty(request.address))
    && ("LINE ITEMS" in errors <==> request.lineItems == [])
    && errors.Keys <= {"FIRST NAME", "LAST NAME", "ADDRESS", "LINE ITEMS"}
    && ("FIRST NAME" in errors ==> errors["FIRST NAME"] == "You must have a first name")
    && ("LAST NAME" in errors ==> errors["LAST NAME"] == "You must have a last name")
    && ("ADDRESS" in errors ==> errors["ADDRESS"] == "You must have an address")
    && ("LINE ITEMS" in errors ==> errors["LINE ITEMS"] == "There are no items in your order")
  }

  /** OrderUpdater.Validate. */
  method Validate(request: OrderDto) returns (errors: map<string, string>)
    ensures errors == map[] <==> AcceptsUpdate(request)
    ensures IsUpdateErrorMap(request, errors)
  {
    errors := map[];
    if IsNullOrEmpty(request.firstName) {
      errors := AddError(errors, "FIRST NAME", "You must have a first name");
    }
    if IsNullOrEmpty(request.lastName) {
      errors := AddError(errors, "LAST NAME", "You must have a last name");
    }
    if IsNullOrEmpty(request.address) {
      errors := AddError(errors, "ADDRESS", "You must have an address");
    }
    if request.lineItems == [] {
      errors := AddError(errors, "LINE ITEMS", "There are no items in your order");
    }
  }

  /** The line a requested item becomes: its fields copied verbatim, not expired. */
  function RowFor(item: LineItemDto): LineItemRow
  {
    LineItemRow(item.productId, item.sku, item.quantity, item.unitCost, item.totalCost, false)
  }

  function RequestedLines(items: seq<LineItemDto>): (lines: seq<LineItemRow>)
    ensures |lines| == |items|
  {
    seq(|items|, i requires 0 <= i < |items| => RowFor(items[i]))
  }

  /** The stored order after the request's values are written over it: OrderId and Created
      from the request, LastModified from the clock, the request's customer fields and lines;
      DiscountId is kept. */
  function UpdatedRow(stored: OrderRow, request: OrderDto, now: Timestamp): OrderRow
  {
    OrderRow(request.orderId, request.created, now, request.firstName, request.lastName, request.address,
             stored.discountId, RequestedLines(request.lineItems))
  }

  /** The response: the request's own OrderId, timestamps, customer fields and discount code,
      with the order's lines as they stand when it is built. */
  function UpdatedResponse(request: OrderDto, lines: seq<LineItemRow>): OrderDto
  {
    OrderDto(request.orderId, request.created, request.lastModified, request.firstName, request.lastName,
             request.address, request.discountCode,
      seq(|lines|, i requires 0 <= i < |lines| =>
        LineItemDto(lines[i].productId, lines[i].sku, DefaultTimestamp, DefaultTimestamp,
                    lines[i].quantity, lines[i].unitCost, lines[i].totalCost)))
  }

  /** What an update answers and what the store holds afterwards. */
  datatype Committed = Committed(response: Result<OrderDto, Failure>, orders: map<int, OrderRow>)

  /** The update as written, once the request has passed validation: the updated row is
      committed first, then the discount code (if not empty) is applied to the tracked order
      only. */
  function UpdateEffect(orders: map<int, OrderRow>, discounts: seq<Discount>, request: OrderDto, now: Timestamp): Committed
  {
    if request.orderId !in orders then Committed(Failure(OrderNotFound), orders)
    else
      var row := UpdatedRow(orders[request.orderId], request, now);
      var saved := orders[request.orderId := row];
      if IsNullOrEmpty(request.discountCode) then Committed(Success(UpdatedResponse(request, row.lineItems)), saved)
      else
        var e := DiscountEffect(discounts, request.discountCode, row.discountId, row.lineItems);
        if e.outcome.Fail? then Committed(Failure(e.outcome.error), saved)
        else Committed(Success(UpdatedResponse(request, e.lineItems)), saved)
  }

  /** The update with the discount applied before the save: a discount that fails leaves the
      store as it was, and one that succeeds is committed with the lines it priced. */
  function UpdateEffectAsIntended(orders: map<int, OrderRow>, discounts: seq<Discount>, request: OrderDto,
                                  now: Timestamp): Committed
  {
    if request.orderId !in orders then Committed(Failure(OrderNotFound), orders)
    else
      var row := UpdatedRow(orders[request.orderId], request, now);
      if IsNullOrEmpty(request.discountCode) then
        Committed(Success(UpdatedResponse(request, row.lineItems)), orders[request.orderId := row])
      else
        var e := DiscountEffect(discounts, request.discountCode, row.discountId, row.lineItems);
        if e.outcome.Fail? then Committed(Failure(e.outcome.error), orders)
        else
          var discounted := row.(discountId := e.discountId, lineItems := e.lineItems);
          Committed(Success(UpdatedResponse(request, e.lineItems)), orders[request.orderId := discounted])
  }

  /** Writes the request's values over the loaded order: the field assignments, Clear, and one
      Add per requested item. */
  method Overwrite(order: TrackedOrder, request: OrderDto, now: Timestamp)
    modifies order
    ensures order.Row() == UpdatedRow(old(order.Row()), request, now)
  {
    order.orderId := request.orderId;
    order.created := request.created;
    order.lastModified := now;
    order.firstName := request.firstName;
    order.lastName := request.lastName;
    order.address := request.address;
    order.lineItems := [];
    for i := 0 to |request.lineItems|
      invariant |order.lineItems| == i
      invariant forall j :: 0 <= j < i ==> order.lineItems[j] == RowFor(request.lineItems[j])
      invariant order.orderId == request.orderId && order.created == request.created && order.lastModified == now
      invariant order.firstName == request.firstName && order.lastName == request.lastName
      invariant order.address == request.address && order.discountId == old(order.discountId)
    {
      order.lineItems := order.lineItems + [RowFor(request.lineItems[i])];
    }
  }

  /** OrderUpdater.Update as written. */
  method Update(db: Database, request: OrderDto, now: Timestamp) returns (r: Result<OrderDto, Failure>)
    requires db.Valid()
    modifies db`orders
    ensures db.Valid()
    ensures !AcceptsUpdate(request) ==>
      && r.Failure? && r.error.ValidationFailure? && r.error.message == ValidationFailedMessage
      && IsUpdateErrorMap(request, r.error.errors)
      && db.orders == old(db.orders)
    ensures AcceptsUpdate(request) ==>
      Committed(r, db.orders) == UpdateEffect(old(db.orders), db.discounts, request, now)
  {
    var errors := Validate(request);
    if errors != map[] {
      return Failure(ValidationFailure(ValidationFailedMessage, errors));
    }
    if request.orderId !in db.orders {
      return Failure(OrderNotFound);
    }
    var order := new TrackedOrder.Load(db.orders[request.orderId]);
    Overwrite(order, request, now);
    db.Save(order);
    if !IsNullOrEmpty(request.discountCode) {
      var outcome := ApplyDiscounts(db.discounts, request.discountCode, order);
      if outcome.Fail? {
        return Failure(outcome.error);
      }
    }
    r := Success(UpdatedResponse(request, order.lineItems));
  }

  /** Update with ApplyDiscounts moved before the save. */
  method UpdateAsIntended(db: Database, request: OrderDto, now: Timestamp) returns (r: Result<OrderDto, Failure>)
    requires db.Valid()
    modifies db`orders
    ensures db.Valid()
    ensures !AcceptsUpdate(request) ==>
      && r.Failure? && r.error.ValidationFailure? && r.error.message == ValidationFailedMessage
      && IsUpdateErrorMap(request, r.error.errors)
      && db.orders == old(db.orders)
    ensures AcceptsUpdate(request) ==>
      Committed(r, db.orders) == UpdateEffectAsIntended(old(db.orders), db.discounts, request, now)
  {
    var errors := Validate(request);
    if errors != map[] {
      return Failure(ValidationFailure(ValidationFailedMessage, errors));
    }
    if request.orderId !in db.orders {
      return Failure(OrderNotFound);
    }
    var order := new TrackedOrder.Load(db.orders[request.orderId]);
    Overwrite(order, request, now);
    if !IsNullOrEmpty(request.discountCode) {
      var outcome := ApplyDiscounts(db.discounts, request.discountCode, order);
      if outcome.Fail? {
        return Failure(outcome.error);
      }
    }
    db.Save(order);
    r := Success(UpdatedResponse(request, order.lineItems));
  }
}
