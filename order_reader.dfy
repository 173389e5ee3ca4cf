/** Application.Orders.OrderReader: loads one order with its line items and its discount and
    projects it to a response. */
module OrderReader {
  import opened Common
  import opened Domain
  import opened Dtos
  import opened Persistence
  import Linq

  const OrderNotFound: Failure := NotFound("Not found")

  /** The navigation `Order.Discount`, loaded through the order's DiscountId. */
  function HasId(discountId: Option<int>): Discount -> bool
  {
    (d: Discount) => Some(d.discountId) == discountId
  }

  /** `order.Discount?.Code`: the code of the discount the order's DiscountId refers to, or null
      when it has none or the id matches no discount. */
  function DiscountCodeOf(discounts: seq<Discount>, discountId: Option<int>): (code: NullableString)
    ensures discountId.None? ==> code.None?
    ensures code.Some? <==> exists i :: 0 <= i < |discounts| && Some(discounts[i].discountId) == discountId
    ensures code.Some? ==> exists i :: 0 <= i < |discounts| && Some(discounts[i].discountId) == discountId
                                       && discounts[i].code == code.value
  {
    var d := Linq.FirstWhere(discounts, HasId(discountId));
    if d.None? then None
    else
      assert HasId(discountId)(d.value);
      Some(d.value.code)
  }

  /** The response line for a stored line: both of its timestamps are the time of the read. */
  function ReadLine(line: LineItemRow, now: Timestamp): LineItemDto
  {
    LineItemDto(line.productId, line.sku, now, now, line.quantity, line.unitCost, line.totalCost)
  }

  /** OrderReader.Read. An id with no stored order raises NotFound; otherwise the stored
      order's fields are answered, with every stored line, expired ones included, in order. */
  function Read(orders: map<int, OrderRow>, discounts: seq<Discount>, orderId: int, now: Timestamp): (r: Result<OrderDto, Failure>)
    ensures r.Failure? <==> orderId !in orders
    ensures r.Failure? ==> r.error == OrderNotFound
    ensures r.Success? ==>
      var row := orders[orderId];
      && r.value.orderId == row.orderId && r.value.created == row.created && r.value.lastModified == row.lastModified
      && r.value.firstName == row.firstName && r.value.lastName == row.lastName && r.value.address == row.address
      && r.value.discountCode == DiscountCodeOf(discounts, row.discountId)
      && |r.value.lineItems| == |row.lineItems|
      && forall i :: 0 <= i < |row.lineItems| ==> r.value.lineItems[i] == ReadLine(row.lineItems[i], now)
  {
    if orderId !in orders then Failure(OrderNotFound)
    else
      var row := orders[orderId];
      Success(OrderDto(row.orderId, row.created, row.lastModified, row.firstName, row.lastName, row.address,
        DiscountCodeOf(discounts, row.discountId),
        seq(|row.lineItems|, i requires 0 <= i < |row.lineItems| => ReadLine(row.lineItems[i], now))))
  }
}
