/** What reading an order back returns after it was created or updated, compared with what the
    create or update answered. */
module OrderRoundTrips {
  import opened Common
  import opened Domain
  import opened Dtos
  import opened Persistence
  import opened DiscountCalculator
  import opened OrderCreator
  import opened OrderUpdater
  import opened OrderReader
  import Linq

  /** DiscountId is the discounts table's key. */
  predicate UniqueDiscountIds(discounts: seq<Discount>)
  {
    forall i, j :: 0 <= i < j < |discounts| ==> discounts[i].discountId != discounts[j].discountId
  }

  /** Two response lines agree on everything but their timestamps. */
  predicate SameLine(a: LineItemDto, b: LineItemDto)
  {
    a.productId == b.productId && a.sku == b.sku && a.quantity == b.quantity
    && a.unitCost == b.unitCost && a.totalCost == b.totalCost
  }

  /** With unique ids, the discount found by code is the one its id refers back to. */
  lemma {:induction false} CodeOfFoundDiscount(discounts: seq<Discount>, code: NullableString)
    requires UniqueDiscountIds(discounts)
    requires Linq.CountWhere(discounts, HasCode(code)) == 1
    ensures DiscountCodeOf(discounts, Some(Linq.FirstWhere(discounts, HasCode(code)).value.discountId)) == code
  {
    var d := Linq.FirstWhere(discounts, HasCode(code)).value;
    assert HasCode(code)(d);
    var c := DiscountCodeOf(discounts, Some(d.discountId));
    var k :| 0 <= k < |discounts| && discounts[k] == d;
    assert c.Some?;
    var i :| 0 <= i < |discounts| && Some(discounts[i].discountId) == Some(d.discountId) && discounts[i].code == c.value;
    assert discounts[i] == discounts[k];
  }

  /** Reading a created order back gives the customer fields and, line by line, the Sku,
      quantity and costs the create answered, plus the product id the create answer leaves at
      0; the discount code read back is the request's when it was not blank (ids being the
      discounts' key), and null when it was. */
  lemma {:induction false} ReadAfterCreate(orders: map<int, OrderRow>, products: seq<Product>, discounts: seq<Discount>,
                                           request: CreateOrderRequestDto, id: int, now: Timestamp)
    requires BuiltOrder(products, discounts, request).Success?
    requires UniqueDiscountIds(discounts)
    ensures var row := BuiltOrder(products, discounts, request).value.(orderId := id);
      var answered := CreatedResponse(row, request);
      var read := Read(orders[id := row], discounts, id, now);
      && read.Success?
      && read.value.orderId == answered.orderId
      && read.value.firstName == request.firstName && read.value.lastName == request.lastName
      && read.value.address == request.address
      && (IsNullOrWhiteSpace(request.discountCode) ==> read.value.discountCode.None?)
      && (!IsNullOrWhiteSpace(request.discountCode) ==> read.value.discountCode == answered.discountCode)
      && |read.value.lineItems| == |answered.lineItems| == |request.lineItems|
      && forall i :: 0 <= i < |request.lineItems| ==>
           && SameLine(read.value.lineItems[i], answered.lineItems[i].(productId := read.value.lineItems[i].productId))
           && read.value.lineItems[i].productId == ProductFor(products, request.lineItems[i].sku).productId
  {
    BuiltOrderPricedLikeDomainOrder(products, discounts, request);
    if !IsNullOrWhiteSpace(request.discountCode) {
      DiscountEffectCases(discounts, request.discountCode, None, ResolvedLines(products, request.lineItems));
      CodeOfFoundDiscount(discounts, request.discountCode);
    }
  }

  /** With the discount applied before the save, reading the order back gives what the update
      answered: the customer fields, Created, the discount code, and every line's product,
      Sku, quantity and costs, discounted totals included. */
  lemma {:induction false} ReadAfterUpdateAsIntended(orders: map<int, OrderRow>, discounts: seq<Discount>,
                                                     request: OrderDto, now: Timestamp, later: Timestamp)
    requires UpdateEffectAsIntended(orders, discounts, request, now).response.Success?
    requires UniqueDiscountIds(discounts)
    requires !IsNullOrEmpty(request.discountCode)
    ensures var effect := UpdateEffectAsIntended(orders, discounts, request, now);
      var answered := effect.response.value;
      var read := Read(effect.orders, discounts, request.orderId, later);
      && read.Success?
      && read.value.orderId == answered.orderId && read.value.created == answered.created
      && read.value.firstName == answered.firstName && read.value.lastName == answered.lastName
      && read.value.address == answered.address
      && read.value.discountCode == answered.discountCode
      && |read.value.lineItems| == |answered.lineItems|
      && forall i :: 0 <= i < |answered.lineItems| ==> SameLine(read.value.lineItems[i], answered.lineItems[i])
  {
    var row := UpdatedRow(orders[request.orderId], request, now);
    DiscountEffectCases(discounts, request.discountCode, row.discountId, row.lineItems);
    CodeOfFoundDiscount(discounts, request.discountCode);
  }

  /** With a null or empty discount code the update applies no discount, so the version as
      written and the corrected one agree. Reading the order back then gives the fields,
      Created and every line the update answered, but the discount code read back is that of
      the DiscountId the stored order already had, while the answer echoes the request's code. */
  lemma {:induction false} ReadAfterUpdateBlankCode(orders: map<int, OrderRow>, discounts: seq<Discount>,
                                                    request: OrderDto, now: Timestamp, later: Timestamp)
    requires request.orderId in orders
    requires IsNullOrEmpty(request.discountCode)
    ensures UpdateEffect(orders, discounts, request, now) == UpdateEffectAsIntended(orders, discounts, request, now)
    ensures var effect := UpdateEffect(orders, discounts, request, now);
      var read := Read(effect.orders, discounts, request.orderId, later);
      && effect.response.Success? && read.Success?
      && var answered := effect.response.value;
      && answered.discountCode == request.discountCode
      && read.value.discountCode == DiscountCodeOf(discounts, orders[request.orderId].discountId)
      && read.value.orderId == answered.orderId && read.value.created == answered.created
      && read.value.firstName == answered.firstName && read.value.lastName == answered.lastName
      && read.value.address == answered.address
      && |read.value.lineItems| == |answered.lineItems| == |request.lineItems|
      && forall i :: 0 <= i < |answered.lineItems| ==> SameLine(read.value.lineItems[i], answered.lineItems[i])
  {
  }

  /** A stored order whose DiscountId is that of a 10% general discount, updated with no
      discount code: the update answers no code, and reading the order back gives the stored
      discount's code. */
  lemma BlankCodeKeepsStoredDiscount()
    ensures var stored := OrderRow(1, 0, 0, Some("A"), Some("B"), Some("C"), Some(7),
                                   [LineItemRow(1, "SKU1", 2, 50.0, 90.0, false)]);
      var discounts := [GeneralDiscount(7, "TENOFF", Some(0.1))];
      var request := OrderDto(1, 0, 0, Some("A"), Some("B"), Some("C"), None,
                              [LineItemDto(1, "SKU1", 0, 0, 2, 50.0, 90.0)]);
      var effect := UpdateEffectAsIntended(map[1 := stored], discounts, request, 5);
      var read := Read(effect.orders, discounts, 1, 6);
      && effect.response.Success?
      && effect.response.value.discountCode == None
      && read.Success?
      && read.value.discountCode == Some("TENOFF")
  {
    var discounts := [GeneralDiscount(7, "TENOFF", Some(0.1))];
    assert HasId(Some(7))(discounts[0]);
    assert Linq.FirstWhere(discounts, HasId(Some(7))) == Some(discounts[0]) by {
      assert discounts[..0] == [];
    }
  }

  /** As written, whatever the discount does stays out of the store: the committed row is the
      request's values over the stored order, with the lines' totals as the request sent them
      and the DiscountId the order already had. */
  lemma {:induction false} UpdateCommitsUndiscounted(orders: map<int, OrderRow>, discounts: seq<Discount>,
                                                     request: OrderDto, now: Timestamp)
    requires request.orderId in orders
    ensures var effect := UpdateEffect(orders, discounts, request, now);
      && effect.orders == orders[request.orderId := UpdatedRow(orders[request.orderId], request, now)]
      && effect.orders[request.orderId].discountId == orders[request.orderId].discountId
      && forall i :: 0 <= i < |request.lineItems| ==>
           effect.orders[request.orderId].lineItems[i].totalCost == request.lineItems[i].totalCost
  {
  }

  /** A stored order with one line of two units at 50, updated with the code of a 10% general
      discount: the update answers a total of 90 and the discount's code, and reading the
      order back gives 100 and no discount code. */
  lemma UpdatedDiscountNotCommitted()
    ensures var stored := OrderRow(1, 0, 0, Some("A"), Some("B"), Some("C"), None,
                                   [LineItemRow(1, "SKU1", 2, 50.0, 100.0, false)]);
      var discounts := [GeneralDiscount(7, "TENOFF", Some(0.1))];
      var request := OrderDto(1, 0, 0, Some("A"), Some("B"), Some("C"), Some("TENOFF"),
                              [LineItemDto(1, "SKU1", 0, 0, 2, 50.0, 100.0)]);
      var effect := UpdateEffect(map[1 := stored], discounts, request, 5);
      var read := Read(effect.orders, discounts, 1, 6);
      && effect.response.Success?
      && effect.response.value.lineItems[0].totalCost == 90.0
      && effect.response.value.discountCode == Some("TENOFF")
      && read.Success?
      && read.value.lineItems[0].totalCost == 100.0
      && read.value.discountCode == None
  {
    var discounts := [GeneralDiscount(7, "TENOFF", Some(0.1))];
    var code: NullableString := Some("TENOFF");
    assert HasCode(code)(discounts[0]);
    assert Linq.CountWhere(discounts, HasCode(code)) == 1 by {
      assert discounts[..0] == [];
    }
    assert Linq.FirstWhere(discounts, HasCode(code)) == Some(discounts[0]) by {
      assert discounts[..0] == [];
    }
  }
}
