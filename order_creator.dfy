/** Application.Orders.OrderCreator: validates a create request, resolves each requested Sku
    to its product, prices the lines, applies the discount code if one is given, and commits
    the new order. */
module OrderCreator {
  import opened Common
  import opened Domain
  import opened Dtos
  import opened Persistence
  import opened OrderRequestValidator
  import opened DiscountCalculator
  import Linq

  /** The lookup condition `x => x.Sku == sku`. */
  function HasSku(sku: string): Product -> bool
  {
    (p: Product) => p.sku == sku
  }

  /** The repository filter `x => skus.Contains(x.Sku)`. */
  function SkuIn(skus: seq<string>): Product -> bool
  {
    (p: Product) => p.sku in skus
  }

  /** The requested Skus, in request order. */
  function Skus(items: seq<LineItemRequestDto>): (skus: seq<string>)
    ensures |skus| == |items|
    ensures forall i :: 0 <= i < |items| ==> skus[i] == items[i].sku
  {
    seq(|items|, i requires 0 <= i < |items| => items[i].sku)
  }

  /** Every requested Sku names exactly one product. */
  predicate AllResolve(products: seq<Product>, items: seq<LineItemRequestDto>)
  {
    forall i :: 0 <= i < |items| ==> Linq.CountWhere(products, HasSku(items[i].sku)) == 1
  }

  /** The product a resolvable Sku names. */
  function ProductFor(products: seq<Product>, sku: string): (p: Product)
    requires Linq.CountWhere(products, HasSku(sku)) == 1
    ensures p in products && p.sku == sku
  {
    Linq.FirstWhere(products, HasSku(sku)).value
  }

  /** The line a requested item becomes: the product's id, Sku and unit cost, the requested
      quantity, and the base total (unit cost times quantity). */
  function LineFor(products: seq<Product>, item: LineItemRequestDto): (line: LineItemRow)
    requires Linq.CountWhere(products, HasSku(item.sku)) == 1
    ensures line.sku == item.sku && line.quantity == item.quantity && !line.isExpired
  {
    var p := ProductFor(products, item.sku);
    LineItemRow(p.productId, p.sku, item.quantity, p.unitCost, BaseTotal(SetLineItemInput(p, item.quantity)), false)
  }

  function ResolvedLines(products: seq<Product>, items: seq<LineItemRequestDto>): (lines: seq<LineItemRow>)
    requires AllResolve(products, items)
    ensures |lines| == |items|
  {
    seq(|items|, i requires 0 <= i < |items| => LineFor(products, items[i]))
  }

  /** The order a request that passed validation becomes before it is inserted (OrderId,
      Created and LastModified still at their defaults), or the exception that stops it: an
      unresolvable Sku, then whatever applying a non-blank discount code raises. */
  function BuiltOrder(products: seq<Product>, discounts: seq<Discount>, request: CreateOrderRequestDto): Result<OrderRow, Failure>
  {
    if !AllResolve(products, request.lineItems) then Failure(InvalidOperation)
    else
      var lines := ResolvedLines(products, request.lineItems);
      if IsNullOrWhiteSpace(request.discountCode) then
        Success(OrderRow(0, DefaultTimestamp, DefaultTimestamp, request.firstName, request.lastName, request.address, None, lines))
      else
        var e := DiscountEffect(discounts, request.discountCode, None, lines);
        if e.outcome.Fail? then Failure(e.outcome.error)
        else Success(OrderRow(0, DefaultTimestamp, DefaultTimestamp, request.firstName, request.lastName, request.address, e.discountId, e.lineItems))
  }

  /** The response built from the committed order: only OrderId, the customer fields, the
      request's discount code and each line's Sku, quantity and costs are set. */
  function CreatedResponse(row: OrderRow, request: CreateOrderRequestDto): OrderDto
  {
    OrderDto(row.orderId, DefaultTimestamp, DefaultTimestamp, row.firstName, row.lastName, row.address, request.discountCode,
      seq(|row.lineItems|, i requires 0 <= i < |row.lineItems| =>
        LineItemDto(0, row.lineItems[i].sku, DefaultTimestamp, DefaultTimestamp,
                    row.lineItems[i].quantity, row.lineItems[i].unitCost, row.lineItems[i].totalCost)))
  }

  /** A built order has one line per requested item, in request order, carrying the product
      the Sku names and the requested quantity; its total is the total a domain order built
      from the same product and quantity would carry under the same discount — none when the
      code is blank, otherwise the one discount holding that code, which is recorded. */
  lemma {:induction false} BuiltOrderPricedLikeDomainOrder(products: seq<Product>, discounts: seq<Discount>,
                                                           request: CreateOrderRequestDto)
    requires BuiltOrder(products, discounts, request).Success?
    ensures AllResolve(products, request.lineItems)
    ensures var row := BuiltOrder(products, discounts, request).value;
      var applied := if IsNullOrWhiteSpace(request.discountCode) then None
                     else Linq.FirstWhere(discounts, HasCode(request.discountCode));
      && row.discountId == (if applied.None? then None else Some(applied.value.discountId))
      && (applied.Some? ==> Some(applied.value.code) == request.discountCode && applied.value.IsKnownVariant())
      && |row.lineItems| == |request.lineItems|
      && forall i :: 0 <= i < |row.lineItems| ==>
           var product := ProductFor(products, request.lineItems[i].sku);
           && row.lineItems[i].productId == product.productId
           && row.lineItems[i].sku == request.lineItems[i].sku
           && row.lineItems[i].quantity == request.lineItems[i].quantity
           && row.lineItems[i].unitCost == product.unitCost
           && !row.lineItems[i].isExpired
           && row.lineItems[i].totalCost == PricedTotal(applied, SetLineItemInput(product, request.lineItems[i].quantity))
  {
    var lines := ResolvedLines(products, request.lineItems);
    if !IsNullOrWhiteSpace(request.discountCode) {
      var code := request.discountCode;
      DiscountEffectCases(discounts, code, None, lines);
      var n := Linq.CountWhere(discounts, HasCode(code));
      assert n == 1;
      var d := Linq.FirstWhere(discounts, HasCode(code)).value;
      assert HasCode(code)(d);
    }
  }

  /** A built order fails on an unresolvable Sku before anything else is looked at; with every
      Sku resolved, a blank code never fails, and an unknown code fails with the
      "discountCode" validation error. */
  lemma {:induction false} BuiltOrderFailures(products: seq<Product>, discounts: seq<Discount>,
                                              request: CreateOrderRequestDto)
    ensures !AllResolve(products, request.lineItems) ==> BuiltOrder(products, discounts, request) == Failure(InvalidOperation)
    ensures AllResolve(products, request.lineItems) && IsNullOrWhiteSpace(request.discountCode) ==>
      BuiltOrder(products, discounts, request).Success?
    ensures AllResolve(products, request.lineItems) && !IsNullOrWhiteSpace(request.discountCode)
            && Linq.FirstWhere(discounts, HasCode(request.discountCode)).None? ==>
      BuiltOrder(products, discounts, request) == Failure(DiscountCodeNotFound)
  {
    if AllResolve(products, request.lineItems) && !IsNullOrWhiteSpace(request.discountCode) {
      DiscountEffectCases(discounts, request.discountCode, None, ResolvedLines(products, request.lineItems));
    }
  }

  /** Resolving the requested items against only the products fetched for their Skus gives
      the lines resolving them against the whole table gives. */
  lemma {:induction false} FetchedResolveAlike(products: seq<Product>, items: seq<LineItemRequestDto>)
    ensures var fetched := Linq.Where(products, SkuIn(Skus(items)));
      && (AllResolve(fetched, items) <==> AllResolve(products, items))
      && (AllResolve(products, items) ==> ResolvedLines(fetched, items) == ResolvedLines(products, items))
  {
    var skus := Skus(items);
    forall j | 0 <= j < |items|
      ensures Linq.CountWhere(Linq.Where(products, SkuIn(skus)), HasSku(items[j].sku)) == Linq.CountWhere(products, HasSku(items[j].sku))
      ensures Linq.FirstWhere(Linq.Where(products, SkuIn(skus)), HasSku(items[j].sku)) == Linq.FirstWhere(products, HasSku(items[j].sku))
    {
      assert skus[j] == items[j].sku;
      Linq.WhereKeepsCount(products, SkuIn(skus), HasSku(items[j].sku));
      Linq.WhereKeepsFirst(products, SkuIn(skus), HasSku(items[j].sku));
    }
    if AllResolve(products, items) {
      var fetched := Linq.Where(products, SkuIn(skus));
      forall j | 0 <= j < |items|
        ensures ResolvedLines(fetched, items)[j] == ResolvedLines(products, items)[j]
      {
        assert ProductFor(fetched, items[j].sku) == ProductFor(products, items[j].sku);
      }
    }
  }

  /** The loop over the requested items, against the products the repository returned:
      Single throws on a Sku that names no product or several; otherwise the line is added. */
  method AddLineItems(products: seq<Product>, request: CreateOrderRequestDto, order: TrackedOrder)
    returns (outcome: Outcome)
    requires order.lineItems == []
    modifies order`lineItems
    ensures outcome == Pass <==> AllResolve(products, request.lineItems)
    ensures outcome.Fail? ==> outcome.error == InvalidOperation
    ensures outcome == Pass ==> order.lineItems == ResolvedLines(products, request.lineItems)
  {
    for i := 0 to |request.lineItems|
      invariant forall j :: 0 <= j < i ==> Linq.CountWhere(products, HasSku(request.lineItems[j].sku)) == 1
      invariant |order.lineItems| == i
      invariant forall j :: 0 <= j < i ==> order.lineItems[j] == LineFor(products, request.lineItems[j])
    {
      var item := request.lineItems[i];
      var found := Linq.Single(products, HasSku(item.sku));
      if found.Failure? {
        return Fail(found.error);
      }
      var product := found.value;
      order.lineItems := order.lineItems + [LineItemRow(product.productId, product.sku, item.quantity, product.unitCost,
                                                        item.quantity as real * product.unitCost, false)];
    }
    outcome := Pass;
  }

  /** The part of Create between validation and the insert: fetch the products for the
      requested Skus, add one line per item, and apply a non-blank discount code. */
  method Build(products: seq<Product>, discounts: seq<Discount>, request: CreateOrderRequestDto)
    returns (r: Result<TrackedOrder, Failure>)
    ensures r.Success? <==> BuiltOrder(products, discounts, request).Success?
    ensures r.Failure? ==> BuiltOrder(products, discounts, request) == Failure(r.error)
    ensures r.Success? ==> fresh(r.value) && r.value.Row() == BuiltOrder(products, discounts, request).value
  {
    var fetched := Linq.Where(products, SkuIn(Skus(request.lineItems)));
    FetchedResolveAlike(products, request.lineItems);
    var order := new TrackedOrder(request.firstName, request.lastName, request.address);
    var added := AddLineItems(fetched, request, order);
    if added.Fail? {
      return Failure(added.error);
    }
    if !IsNullOrWhiteSpace(request.discountCode) {
      var applied := ApplyDiscounts(discounts, request.discountCode, order);
      if applied.Fail? {
        return Failure(applied.error);
      }
    }
    r := Success(order);
  }

  /** OrderCreator.Create. A request that fails validation raises the ValidationException with
      the validator's errors; otherwise the built order is inserted under a fresh OrderId and
      committed, or nothing is committed when building it throws. */
  method Create(db: Database, request: CreateOrderRequestDto) returns (r: Result<OrderDto, Failure>)
    requires db.Valid()
    modifies db`orders, db`nextOrderId
    ensures db.Valid()
    ensures !AcceptsRequestAsIntended(request) ==>
      && r.Failure? && r.error.ValidationFailure?
      && r.error.message == "Request failed validation"
      && IsIntendedRequestErrorMap(request, r.error.errors)
    ensures AcceptsRequestAsIntended(request) ==>
      var built := BuiltOrder(db.products, db.discounts, request);
      && (built.Failure? ==> r == Failure(built.error))
      && (built.Success? ==>
            var row := built.value.(orderId := old(db.nextOrderId));
            && db.orders == old(db.orders)[row.orderId := row]
            && r == Success(CreatedResponse(row, request)))
    ensures r.Failure? ==> db.orders == old(db.orders) && db.nextOrderId == old(db.nextOrderId)
    ensures r.Success? ==> db.nextOrderId == old(db.nextOrderId) + 1 && old(db.nextOrderId) !in old(db.orders)
  {
    var valid, errors := IsValidRequestAsIntended(request);
    if !valid {
      return Failure(ValidationFailure("Request failed validation", errors));
    }
    var built := Build(db.products, db.discounts, request);
    if built.Failure? {
      return Failure(built.error);
    }
    var order := built.value;
    db.InsertAndSave(order);
    r := Success(CreatedResponse(order.Row(), request));
  }
}
