/** The Domain namespace: products, discounts, line items and the order aggregate, with the
    pricing rules of the two discount variants. Money is exact (`real`); the wall clock is the
    `now` parameter of the operations that stamp a time. */
module Domain {
  import opened Common
  import Linq

  type Money = real

  /** A point in time, supplied by the caller in place of DateTime.UtcNow. */
  type Timestamp = int

  /** Reference data a line item takes its price from. */
  datatype Product = Product(productId: int, sku: string, name: string, unitCost: Money)

  /** A resolved line-item request: which product, how many. */
  datatype SetLineItemInput = SetLineItemInput(product: Product, quantity: int)

  /** The DiscountType enum, as the int it is stored as. */
  type DiscountType = int
  const GeneralDiscountType: DiscountType := 1
  const BuyOneGetOneFreeType: DiscountType := 2

  /** A discount: identity, unique code, type and (for the general variant) a percentage.
      Every property is init-only, so a discount is a value. */
  datatype Discount = Discount(discountId: int, code: string, discountType: DiscountType, percentage: Option<Money>)
  {
    predicate IsGeneral() { discountType == GeneralDiscountType }
    predicate IsBuyOneGetOneFree() { discountType == BuyOneGetOneFreeType }

    /** Built by one of the two concrete subclasses, so it has a Calculate override. */
    predicate IsKnownVariant() { IsGeneral() || IsBuyOneGetOneFree() }
  }

  /** The GeneralDiscount constructor. */
  function GeneralDiscount(discountId: int, code: string, percentage: Option<Money>): (d: Discount)
    ensures d.IsGeneral() && !d.IsBuyOneGetOneFree()
    ensures d.discountId == discountId && d.code == code && d.percentage == percentage
  {
    Discount(discountId, code, GeneralDiscountType, percentage)
  }

  /** The BuyOneGetOneFreeDiscount constructor: the base constructor's percentage defaults to null. */
  function BuyOneGetOneFreeDiscount(discountId: int, code: string): (d: Discount)
    ensures d.IsBuyOneGetOneFree() && !d.IsGeneral()
    ensures d.discountId == discountId && d.code == code && d.percentage == None
  {
    Discount(discountId, code, BuyOneGetOneFreeType, None)
  }

  // ---------------------------------------------------------------------------------------
  // Pricing rules

  /** Percentage.GetValueOrDefault(). */
  function PercentageOrZero(percentage: Option<Money>): Money
  {
    if percentage.Some? then percentage.value else 0.0
  }

  /** What the general discount makes of a line total. */
  function GeneralTotal(percentage: Option<Money>, totalCost: Money): Money
  {
    totalCost * (1.0 - PercentageOrZero(percentage))
  }

  /** What buy-one-get-one-free makes of a line total: lines of at most one unit are skipped,
      even quantities halve the current total, odd ones are repriced from the unit cost. */
  function BogofTotal(quantity: int, unitCost: Money, totalCost: Money): Money
  {
    if quantity <= 1 then totalCost
    else if quantity % 2 == 0 then totalCost * 0.5
    else unitCost + (quantity - 1) as real * unitCost / 2.0
  }

  /** The total a discount gives one line, by the discount's type; any other type leaves it. */
  function DiscountedTotal(discount: Discount, quantity: int, unitCost: Money, totalCost: Money): Money
  {
    if discount.IsGeneral() then GeneralTotal(discount.percentage, totalCost)
    else if discount.IsBuyOneGetOneFree() then BogofTotal(quantity, unitCost, totalCost)
    else totalCost
  }

  /** Whether applying the discount rewrites a line of this quantity (and so refreshes its
      LastModified): the general discount rewrites every line, BOGOF only quantities above one. */
  predicate Rewrites(discount: Discount, quantity: int)
  {
    discount.IsGeneral() || (discount.IsBuyOneGetOneFree() && quantity > 1)
  }

  /** The price a new line item starts with: unit cost times quantity. */
  function BaseTotal(input: SetLineItemInput): Money
  {
    input.product.unitCost * input.quantity as real
  }

  /** The total an order constructor leaves on the line built from `input`. */
  function PricedTotal(discount: Option<Discount>, input: SetLineItemInput): Money
  {
    if discount.None? then BaseTotal(input)
    else DiscountedTotal(discount.value, input.quantity, input.product.unitCost, BaseTotal(input))
  }

  /** Without a discount, the general discount with no percentage, or BOGOF on a single unit,
      the line keeps its base total. */
  lemma {:induction false} PricingWithoutReduction(input: SetLineItemInput, d: Discount)
    ensures PricedTotal(None, input) == BaseTotal(input)
    ensures d.IsGeneral() && d.percentage.None? ==> PricedTotal(Some(d), input) == BaseTotal(input)
    ensures d.IsBuyOneGetOneFree() && input.quantity <= 1 ==> PricedTotal(Some(d), input) == BaseTotal(input)
  {
  }

  /** On a base total, BOGOF charges for half the units rounded up: an even quantity pays half
      its total, an odd one pays one unit plus half of the rest. */
  lemma {:induction false} BogofChargesHalfRoundedUp(quantity: int, unitCost: Money)
    requires quantity >= 0
    ensures BogofTotal(quantity, unitCost, unitCost * quantity as real) == unitCost * ((quantity + 1) / 2) as real
    ensures quantity > 1 && quantity % 2 == 0 ==>
      BogofTotal(quantity, unitCost, unitCost * quantity as real) == unitCost * quantity as real / 2.0
  {
    var k := quantity / 2;
    if quantity > 1 {
      if quantity % 2 == 0 {
        assert quantity == 2 * k && (quantity + 1) / 2 == k;
        assert quantity as real == 2.0 * k as real;
      } else {
        assert quantity == 2 * k + 1 && (quantity + 1) / 2 == k + 1;
        assert (quantity - 1) as real == 2.0 * k as real;
        calc {
          unitCost + (quantity - 1) as real * unitCost / 2.0;
          unitCost + k as real * unitCost;
          unitCost * (k + 1) as real;
        }
      }
    } else {
      assert quantity == 0 || quantity == 1;
    }
  }

  /** BOGOF reprices odd quantities above one from the unit cost alone, so the prior total is
      irrelevant and applying it again changes nothing; lines of at most one unit are untouched. */
  lemma {:induction false} BogofStableOnOddQuantities(quantity: int, unitCost: Money, totalCost: Money, otherTotal: Money)
    requires quantity <= 1 || quantity % 2 == 1
    ensures quantity <= 1 ==> BogofTotal(quantity, unitCost, totalCost) == totalCost
    ensures quantity > 1 ==> BogofTotal(quantity, unitCost, totalCost) == BogofTotal(quantity, unitCost, otherTotal)
    ensures BogofTotal(quantity, unitCost, BogofTotal(quantity, unitCost, totalCost)) == BogofTotal(quantity, unitCost, totalCost)
  {
  }

  /** Re-applying BOGOF to an even quantity halves the already-halved total: it discounts twice. */
  lemma {:induction false} BogofCompoundsOnEvenQuantities(quantity: int, unitCost: Money, totalCost: Money)
    requires quantity > 1 && quantity % 2 == 0
    ensures BogofTotal(quantity, unitCost, BogofTotal(quantity, unitCost, totalCost)) == totalCost / 4.0
  {
  }

  /** Scaling a non-negative amount by a larger factor never gives less. */
  lemma ScaleBetween(x: real, a: real, b: real)
    requires x >= 0.0 && 0.0 <= a <= b
    ensures 0.0 <= x * a <= x * b
  {
  }

  /** For non-negative prices and a percentage between 0 and 1, no discount raises a line's base
      total or makes it negative. */
  lemma {:induction false} DiscountNeverRaisesBaseTotal(discount: Discount, quantity: int, unitCost: Money)
    requires quantity >= 0 && unitCost >= 0.0
    requires 0.0 <= PercentageOrZero(discount.percentage) <= 1.0
    ensures 0.0 <= DiscountedTotal(discount, quantity, unitCost, unitCost * quantity as real) <= unitCost * quantity as real
  {
    var base := unitCost * quantity as real;
    ScaleBetween(unitCost, 0.0, quantity as real);
    if discount.IsGeneral() {
      ScaleBetween(base, 1.0 - PercentageOrZero(discount.percentage), 1.0);
    } else if discount.IsBuyOneGetOneFree() {
      BogofChargesHalfRoundedUp(quantity, unitCost);
      var half := (quantity + 1) / 2;
      assert 0 <= half <= quantity || quantity == 0;
      if quantity > 0 {
        ScaleBetween(unitCost, half as real, quantity as real);
      }
    }
  }

  /** The amounts the repository's tests assert: 100 x 1 and 200 x 2 undiscounted, 10% off
      those, and BOGOF on 4 and on 3 units at 150. */
  lemma PricingExamples()
    ensures PricedTotal(None, SetLineItemInput(Product(10000, "SKU1", "PRODUCT ONE", 100.0), 1)) == 100.0
    ensures PricedTotal(None, SetLineItemInput(Product(10100, "SKU2", "PRODUCT TWO", 200.0), 2)) == 400.0
    ensures PricedTotal(Some(GeneralDiscount(10000, "TEST-10PERCENT", Some(0.1))),
                        SetLineItemInput(Product(10000, "SKU1", "PRODUCT ONE", 100.0), 1)) == 90.0
    ensures PricedTotal(Some(GeneralDiscount(10000, "TEST-10PERCENT", Some(0.1))),
                        SetLineItemInput(Product(10100, "SKU2", "PRODUCT TWO", 200.0), 2)) == 360.0
    ensures PricedTotal(Some(BuyOneGetOneFreeDiscount(10100, "TEST-BOGOF")),
                        SetLineItemInput(Product(11000, "SKU3", "PRODUCT THREE", 150.0), 4)) == 300.0
    ensures PricedTotal(Some(BuyOneGetOneFreeDiscount(10100, "TEST-BOGOF")),
                        SetLineItemInput(Product(11000, "SKU3", "PRODUCT THREE", 150.0), 3)) == 300.0
  {
  }

  // ---------------------------------------------------------------------------------------
  // Line items

  /** One product on an order. OrderId, ProductId, Sku, Created and the navigation properties
      are init-only (`const`); Quantity, UnitCost, TotalCost, IsExpired and LastModified have
      private setters and change only through the methods below. */
  class LineItem {
    const order: Order
    const orderId: int
    const product: Product
    const productId: int
    const sku: string
    const created: Timestamp
    var lastModified: Timestamp
    var isExpired: bool
    var quantity: int
    var unitCost: Money
    var totalCost: Money

    /** The state the constructor leaves: the product's id, Sku and unit cost copied, priced at
        unit cost times quantity, not expired, both timestamps `now`. */
    predicate IsNewFrom(order: Order, input: SetLineItemInput, now: Timestamp)
      reads this
    {
      && this.order == order && orderId == order.orderId
      && product == input.product && productId == input.product.productId
      && sku == input.product.sku && unitCost == input.product.unitCost
      && quantity == input.quantity && totalCost == BaseTotal(input)
      && !isExpired && created == now && lastModified == now
    }

    /** The state of a line the order constructor built from `input` and then let `discount`
        reprice: as IsNewFrom, except that the total is the priced total (both timestamps stay
        `now`, since the discount runs at the same instant). */
    predicate IsPricedFrom(order: Order, input: SetLineItemInput, discount: Option<Discount>, now: Timestamp)
      reads this
    {
      && this.order == order && orderId == order.orderId
      && product == input.product && productId == input.product.productId
      && sku == input.product.sku && unitCost == input.product.unitCost
      && quantity == input.quantity && totalCost == PricedTotal(discount, input)
      && !isExpired && created == now && lastModified == now
    }

    constructor (order: Order, input: SetLineItemInput, now: Timestamp)
      ensures IsNewFrom(order, input, now)
    {
      this.order := order;
      orderId := order.orderId;
      product := input.product;
      productId := input.product.productId;
      created := now;
      lastModified := now;
      quantity := input.quantity;
      sku := input.product.sku;
      unitCost := input.product.unitCost;
      totalCost := input.product.unitCost * input.quantity as real;
      isExpired := false;
    }

    /** Sets a new quantity and reprices the line from its unit cost; the same quantity
        is a no-op that does not even touch LastModified. */
    method Update(quantity: int, now: Timestamp)
      modifies this`quantity, this`totalCost, this`lastModified
      ensures old(this.quantity) == quantity ==>
        this.totalCost == old(this.totalCost) && lastModified == old(lastModified)
      ensures this.quantity == quantity
      ensures old(this.quantity) != quantity ==>
        totalCost == unitCost * quantity as real && lastModified == now
    {
      if this.quantity == quantity {
        return;
      }
      this.quantity := quantity;
      totalCost := unitCost * this.quantity as real;
      lastModified := now;
    }

    /** Overwrites the total (used by the discounts) and refreshes LastModified. */
    method UpdateTotal(totalCost: Money, now: Timestamp)
      modifies this`totalCost, this`lastModified
      ensures this.totalCost == totalCost && lastModified == now
    {
      this.totalCost := totalCost;
      lastModified := now;
    }

    /** Soft-deletes the line. Nothing sets IsExpired back to false: no other method has it
        in its frame. */
    method Expire(now: Timestamp)
      modifies this`isExpired, this`lastModified
      ensures isExpired && lastModified == now
    {
      isExpired := true;
      lastModified := now;
    }
  }

  /** `LineItems = lineItems.Select(input => new LineItem(this, input)).ToHashSet()`: one new
      line item per input, all distinct, so the set has one member per input. */
  method NewLineItems(order: Order, inputs: seq<SetLineItemInput>, now: Timestamp)
    modifies order`lineItems, order`itemOrder
    ensures |order.itemOrder| == |inputs| && order.lineItems == set li | li in order.itemOrder
    ensures |order.lineItems| == |inputs|
    ensures forall i, j :: 0 <= i < j < |order.itemOrder| ==> order.itemOrder[i] != order.itemOrder[j]
    ensures forall i :: 0 <= i < |inputs| ==>
      fresh(order.itemOrder[i]) && order.itemOrder[i].IsNewFrom(order, inputs[i], now)
  {
    var items: seq<LineItem> := [];
    for k := 0 to |inputs|
      invariant |items| == k
      invariant forall i :: 0 <= i < k ==> fresh(items[i]) && items[i].IsNewFrom(order, inputs[i], now)
      invariant forall i, j :: 0 <= i < j < k ==> items[i] != items[j]
    {
      var item := new LineItem(order, inputs[k], now);
      items := items + [item];
    }
    order.lineItems := set li | li in items;
    order.itemOrder := items;
    Linq.DistinctToSetCardinality(items);
  }

  // ---------------------------------------------------------------------------------------
  // Discount application (the two Calculate overrides)

  /** GeneralDiscount.Calculate: every line's total becomes total * (1 - percentage). */
  method CalculateGeneral(discount: Discount, order: Order, now: Timestamp)
    requires discount.IsGeneral()
    modifies order.lineItems
    ensures forall li :: li in order.lineItems ==>
      && li.totalCost == GeneralTotal(discount.percentage, old(li.totalCost))
      && li.lastModified == now
      && li.quantity == old(li.quantity) && li.unitCost == old(li.unitCost) && li.isExpired == old(li.isExpired)
  {
    var remaining := order.lineItems;
    while remaining != {}
      invariant remaining <= order.lineItems
      invariant forall li :: li in order.lineItems && li !in remaining ==>
        li.totalCost == GeneralTotal(discount.percentage, old(li.totalCost)) && li.lastModified == now
      invariant forall li :: li in remaining ==> li.totalCost == old(li.totalCost)
      invariant forall li :: li in order.lineItems ==>
        li.quantity == old(li.quantity) && li.unitCost == old(li.unitCost) && li.isExpired == old(li.isExpired)
      decreases remaining
    {
      var li :| li in remaining;
      li.UpdateTotal(li.totalCost * (1.0 - PercentageOrZero(discount.percentage)), now);
      remaining := remaining - {li};
    }
  }

  /** BuyOneGetOneFreeDiscount.Calculate over the lines with Quantity > 1. */
  method CalculateBuyOneGetOneFree(discount: Discount, order: Order, now: Timestamp)
    requires discount.IsBuyOneGetOneFree()
    modifies order.lineItems
    ensures forall li :: li in order.lineItems ==>
      && li.totalCost == BogofTotal(old(li.quantity), old(li.unitCost), old(li.totalCost))
      && li.lastModified == (if old(li.quantity) > 1 then now else old(li.lastModified))
      && li.quantity == old(li.quantity) && li.unitCost == old(li.unitCost) && li.isExpired == old(li.isExpired)
  {
    var remaining := order.lineItems;
    while remaining != {}
      invariant remaining <= order.lineItems
      invariant forall li :: li in order.lineItems && li !in remaining ==>
        && li.totalCost == BogofTotal(old(li.quantity), old(li.unitCost), old(li.totalCost))
        && li.lastModified == (if old(li.quantity) > 1 then now else old(li.lastModified))
      invariant forall li :: li in remaining ==>
        li.totalCost == old(li.totalCost) && li.lastModified == old(li.lastModified)
      invariant forall li :: li in order.lineItems ==>
        li.quantity == old(li.quantity) && li.unitCost == old(li.unitCost) && li.isExpired == old(li.isExpired)
      decreases remaining
    {
      var li :| li in remaining;
      if li.quantity > 1 {
        if li.quantity % 2 == 0 {
          li.UpdateTotal(li.totalCost * 0.5, now);
        } else if li.quantity > 1 {
          li.UpdateTotal(li.unitCost + (li.quantity - 1) as real * li.unitCost / 2.0, now);
        }
      }
      remaining := remaining - {li};
    }
  }

  /** Discount.Calculate: the override of whichever subclass the discount is. */
  method Calculate(discount: Discount, order: Order, now: Timestamp)
    requires discount.IsKnownVariant()
    modifies order.lineItems
    ensures forall li :: li in order.lineItems ==>
      && li.totalCost == DiscountedTotal(discount, old(li.quantity), old(li.unitCost), old(li.totalCost))
      && li.lastModified == (if Rewrites(discount, old(li.quantity)) then now else old(li.lastModified))
      && li.quantity == old(li.quantity) && li.unitCost == old(li.unitCost) && li.isExpired == old(li.isExpired)
  {
    if discount.IsGeneral() {
      CalculateGeneral(discount, order, now);
    } else {
      CalculateBuyOneGetOneFree(discount, order, now);
    }
  }

  /** `Discount?.Calculate(this)` in the order constructor, over the lines it has just built:
      each line ends up priced for the discount (or at its base total without one). */
  method PriceNewLines(order: Order, discount: Option<Discount>, ghost items: seq<LineItem>,
                       inputs: seq<SetLineItemInput>, now: Timestamp)
    requires discount.Some? ==> discount.value.IsKnownVariant()
    requires order.lineItems == set li | li in items
    requires |items| == |inputs|
    requires forall i :: 0 <= i < |items| ==> items[i].IsNewFrom(order, inputs[i], now)
    modifies order.lineItems
    ensures forall i :: 0 <= i < |items| ==> items[i].IsPricedFrom(order, inputs[i], discount, now)
  {
    if discount.Some? {
      Calculate(discount.value, order, now);
      forall i | 0 <= i < |items|
        ensures items[i].IsPricedFrom(order, inputs[i], discount, now)
      {
        assert items[i] in order.lineItems;
      }
    }
  }

  // ---------------------------------------------------------------------------------------
  // The order aggregate

  /** The order aggregate root. OrderId and Created are init-only; the customer fields, the
      discount and LastModified have private setters; the line items are a HashSet behind a
      read-only view. */
  class Order {
    const orderId: int
    const created: Timestamp
    var lastModified: Timestamp
    var firstName: NullableString
    var lastName: NullableString
    var address: NullableString
    var discountId: Option<int>
    var discount: Option<Discount>
    var lineItems: set<LineItem>
    /** The members of `lineItems` in the order of the inputs they were built from (the
        HashSet itself keeps no order). */
    ghost var itemOrder: seq<LineItem>

    /** The read-only LineItems view. */
    function LineItems(): set<LineItem>
      reads this
    {
      lineItems
    }

    /** Stores the customer fields as given, builds one line item per input priced at unit
        cost times quantity, records the discount, and only then lets it reprice the lines. */
    constructor (firstName: NullableString, lastName: NullableString, address: NullableString,
                 discount: Option<Discount>, inputs: seq<SetLineItemInput>, now: Timestamp)
      requires discount.Some? ==> discount.value.IsKnownVariant()
      ensures orderId == 0 && created == now && lastModified == now
      ensures this.firstName == firstName && this.lastName == lastName && this.address == address
      ensures discountId == (if discount.Some? then Some(discount.value.discountId) else None)
      ensures this.discount == discount
      ensures |itemOrder| == |inputs| && LineItems() == set li | li in itemOrder
      ensures |LineItems()| == |inputs|
      ensures forall i, j :: 0 <= i < j < |itemOrder| ==> itemOrder[i] != itemOrder[j]
      ensures forall i :: 0 <= i < |inputs| ==> fresh(itemOrder[i]) && itemOrder[i].IsPricedFrom(this, inputs[i], discount, now)
    {
      orderId := 0;
      created := now;
      lastModified := now;
      this.firstName := firstName;
      this.lastName := lastName;
      this.address := address;
      new;
      NewLineItems(this, inputs, now);
      discountId := if discount.Some? then Some(discount.value.discountId) else None;
      this.discount := discount;
      PriceNewLines(this, discount, itemOrder, inputs, now);
    }
  }
}
