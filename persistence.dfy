/** The store the application services work against, and the order entity they load, change
    and save. The application layer compiles against a revision of Order and LineItem whose
    properties are publicly settable and whose LineItems is a list; that revision is modelled
    here. Products and discounts are tables (sequences), queried with LINQ; committed orders
    are values keyed by OrderId. */
module Persistence {
  import opened Common
  import opened Domain

  /** A line item of the application-layer entity revision. */
  datatype LineItemRow = LineItemRow(
    productId: int,
    sku: string,
    quantity: int,
    unitCost: Money,
    totalCost: Money,
    isExpired: bool)

  /** An order as committed to the store. */
  datatype OrderRow = OrderRow(
    orderId: int,
    created: Timestamp,
    lastModified: Timestamp,
    firstName: NullableString,
    lastName: NullableString,
    address: NullableString,
    discountId: Option<int>,
    lineItems: seq<LineItemRow>)

  /** An order entity tracked by the unit of work: changes to it reach the store only when
      it is saved. */
  class TrackedOrder {
    var orderId: int
    var created: Timestamp
    var lastModified: Timestamp
    var firstName: NullableString
    var lastName: NullableString
    var address: NullableString
    var discountId: Option<int>
    var lineItems: seq<LineItemRow>

    /** The values a save would write. */
    function Row(): OrderRow
      reads this
    {
      OrderRow(orderId, created, lastModified, firstName, lastName, address, discountId, lineItems)
    }

    /** An object initializer that sets the customer fields and an empty line-item list:
        every other property keeps its default. */
    constructor (firstName: NullableString, lastName: NullableString, address: NullableString)
      ensures Row() == OrderRow(0, 0, 0, firstName, lastName, address, None, [])
    {
      orderId, created, lastModified := 0, 0, 0;
      this.firstName, this.lastName, this.address := firstName, lastName, address;
      discountId := None;
      lineItems := [];
    }

    /** A committed order materialised by a query that includes its line items. */
    constructor Load(row: OrderRow)
      ensures Row() == row
    {
      orderId, created, lastModified := row.orderId, row.created, row.lastModified;
      firstName, lastName, address := row.firstName, row.lastName, row.address;
      discountId := row.discountId;
      lineItems := row.lineItems;
    }
  }

  /** The repositories and the unit of work. */
  class Database {
    var products: seq<Product>
    var discounts: seq<Discount>
    var orders: map<int, OrderRow>
    /** The identity the next inserted order receives (OrderId is generated on add). */
    var nextOrderId: int

    /** Every committed order is stored under its own id, and ids still to be handed out are
        unused. */
    ghost predicate Valid()
      reads this
    {
      && nextOrderId > 0
      && forall id :: id in orders ==> orders[id].orderId == id && id < nextOrderId
    }

    /** IRepository<Order>.Insert then IUnitOfWork.Save: the order receives a fresh identity
        and is committed under it. */
    method InsertAndSave(order: TrackedOrder)
      requires Valid()
      modifies this`orders, this`nextOrderId, order`orderId
      ensures Valid()
      ensures order.orderId == old(nextOrderId) && order.orderId !in old(orders)
      ensures orders == old(orders)[order.orderId := order.Row()]
      ensures nextOrderId == old(nextOrderId) + 1
    {
      order.orderId := nextOrderId;
      orders := orders[order.orderId := order.Row()];
      nextOrderId := nextOrderId + 1;
    }

    /** IUnitOfWork.Save for an order that is already stored: its current values are committed. */
    method Save(order: TrackedOrder)
      requires Valid() && order.orderId in orders
      modifies this`orders
      ensures Valid()
      ensures orders == old(orders)[order.orderId := order.Row()]
    {
      orders := orders[order.orderId := order.Row()];
    }
  }
}
