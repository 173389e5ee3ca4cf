/** Client.Dtos: the request and response shapes of the order services. Fields that the
    services read or write but that are absent from the shapes they declare (the discount
    code of a create request, the timestamps of an order) are included. */
module Dtos {
  import opened Common
  import opened Domain

  /** default(DateTime): what a timestamp the code never sets holds. */
  const DefaultTimestamp: Timestamp := 0

  datatype LineItemRequestDto = LineItemRequestDto(sku: string, quantity: int)

  datatype CreateOrderRequestDto = CreateOrderRequestDto(
    firstName: NullableString,
    lastName: NullableString,
    address: NullableString,
    lineItems: seq<LineItemRequestDto>,
    discountCode: NullableString)

  datatype LineItemDto = LineItemDto(
    productId: int,
    sku: string,
    created: Timestamp,
    lastModified: Timestamp,
    quantity: int,
    unitCost: Money,
    totalCost: Money)

  datatype OrderDto = OrderDto(
    orderId: int,
    created: Timestamp,
    lastModified: Timestamp,
    firstName: NullableString,
    lastName: NullableString,
    address: NullableString,
    discountCode: NullableString,
    lineItems: seq<LineItemDto>)
}
