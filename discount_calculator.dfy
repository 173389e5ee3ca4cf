/** Application.Discounts.DiscountCalculator: looks a discount up by its code, records it on the
    order and reprices the order's lines according to the discount's type. */
module DiscountCalculator {
  import opened Common
  import opened Domain
  import opened Persistence
  import Linq

  /** The failure raised when no discount has the requested code. */
  const DiscountCodeNotFound: Failure :=
    ValidationFailure("Request failed validation", map["discountCode" := "Discount code not found"])

  /** The lookup condition `x => x.Code == discountCode`. */
  function HasCode(code: NullableString): Discount -> bool
  {
    (d: Discount) => Some(d.code) == code
  }

  /** The line a discount makes of `line`: only the total changes, to the discounted total. */
  function DiscountedLine(discount: Discount, line: LineItemRow): (r: LineItemRow)
    ensures r.productId == line.productId && r.sku == line.sku && r.isExpired == line.isExpired
    ensures r.quantity == line.quantity && r.unitCost == line.unitCost
    ensures r.totalCost == DiscountedTotal(discount, line.quantity, line.unitCost, line.totalCost)
  {
    line.(totalCost := DiscountedTotal(discount, line.quantity, line.unitCost, line.totalCost))
  }

  function DiscountedLines(discount: Discount, lines: seq<LineItemRow>): seq<LineItemRow>
  {
    seq(|lines|, i requires 0 <= i < |lines| => DiscountedLine(discount, lines[i]))
  }

  /** What ApplyDiscounts leaves behind: how it ends, the order's DiscountId and its lines. */
  datatype Applied = Applied(outcome: Outcome, discountId: Option<int>, lineItems: seq<LineItemRow>)

  /** The effect of ApplyDiscounts on an order with this DiscountId and these lines, given the
      discounts table. */
  function DiscountEffect(discounts: seq<Discount>, code: NullableString, discountId: Option<int>,
                          lines: seq<LineItemRow>): Applied
  {
    var n := Linq.CountWhere(discounts, HasCode(code));
    if n == 0 then Applied(Fail(DiscountCodeNotFound), discountId, lines)
    else if n > 1 then Applied(Fail(InvalidOperation), discountId, lines)
    else
      var d := Linq.FirstWhere(discounts, HasCode(code)).value;
      if d.IsKnownVariant() then Applied(Pass, Some(d.discountId), DiscountedLines(d, lines))
      else Applied(Fail(ArgumentOutOfRange), Some(d.discountId), lines)
  }

  /** An unknown code fails with the "discountCode" validation error and changes nothing; a
      found discount is recorded on the order before its type is examined, so even the
      out-of-range failure leaves the new DiscountId; a known type reprices every line; no
      outcome changes a line's quantity, unit cost or the number of lines. */
  lemma {:induction false} DiscountEffectCases(discounts: seq<Discount>, code: NullableString,
                                               discountId: Option<int>, lines: seq<LineItemRow>)
    ensures var e := DiscountEffect(discounts, code, discountId, lines);
      && (Linq.FirstWhere(discounts, HasCode(code)).None? ==>
            e == Applied(Fail(DiscountCodeNotFound), discountId, lines)
            && e.outcome.error.errors.Keys == {"discountCode"})
      && (Linq.CountWhere(discounts, HasCode(code)) == 1 ==>
            var d := Linq.FirstWhere(discounts, HasCode(code)).value;
            && d.code == code.value
            && e.discountId == Some(d.discountId)
            && (e.outcome == Pass <==> d.IsKnownVariant())
            && (!d.IsKnownVariant() ==> e.outcome == Fail(ArgumentOutOfRange) && e.lineItems == lines)
            && (d.IsKnownVariant() ==> forall i :: 0 <= i < |lines| ==>
                  e.lineItems[i].totalCost == DiscountedTotal(d, lines[i].quantity, lines[i].unitCost, lines[i].totalCost)))
      && |e.lineItems| == |lines|
      && forall i :: 0 <= i < |lines| ==>
           e.lineItems[i].quantity == lines[i].quantity && e.lineItems[i].unitCost == lines[i].unitCost
           && e.lineItems[i].sku == lines[i].sku && e.lineItems[i].productId == lines[i].productId
  {
    var p := HasCode(code);
    if Linq.FirstWhere(discounts, p).None? {
      assert Linq.CountWhere(discounts, p) == 0;
    }
    if Linq.CountWhere(discounts, p) == 1 {
      var d := Linq.FirstWhere(discounts, p).value;
      assert p(d);
    }
  }

  /** ApplyGeneralDiscount: each line's total is multiplied by 1 - percentage. */
  method ApplyGeneralDiscount(discount: Discount, order: TrackedOrder)
    requires discount.IsGeneral()
    modifies order`lineItems
    ensures order.lineItems == DiscountedLines(discount, old(order.lineItems))
  {
    ghost var original := order.lineItems;
    for i := 0 to |order.lineItems|
      invariant |order.lineItems| == |original|
      invariant forall j :: 0 <= j < i ==> order.lineItems[j] == DiscountedLine(discount, original[j])
      invariant forall j :: i <= j < |original| ==> order.lineItems[j] == original[j]
    {
      var line := order.lineItems[i];
      order.lineItems := order.lineItems[i := line.(totalCost := line.totalCost * (1.0 - PercentageOrZero(discount.percentage)))];
    }
  }

  /** ApplyBogofDiscount: over the lines with Quantity > 1, even quantities halve their total
      and odd ones are repriced to one unit plus half of the remaining units. */
  method ApplyBogofDiscount(discount: Discount, order: TrackedOrder)
    requires discount.IsBuyOneGetOneFree()
    modifies order`lineItems
    ensures order.lineItems == DiscountedLines(discount, old(order.lineItems))
  {
    ghost var original := order.lineItems;
    for i := 0 to |order.lineItems|
      invariant |order.lineItems| == |original|
      invariant forall j :: 0 <= j < i ==> order.lineItems[j] == DiscountedLine(discount, original[j])
      invariant forall j :: i <= j < |original| ==> order.lineItems[j] == original[j]
    {
      var line := order.lineItems[i];
      if line.quantity > 1 {
        if line.quantity % 2 == 0 {
          order.lineItems := order.lineItems[i := line.(totalCost := line.totalCost * 0.5)];
        } else if line.quantity > 1 {
          order.lineItems := order.lineItems[i := line.(totalCost := line.unitCost + (line.quantity - 1) as real * line.unitCost / 2.0)];
        }
      }
    }
  }

  /** ApplyDiscounts: SingleOrDefault over the discounts with the code, DiscountId recorded,
      then a switch on the discount type. */
  method ApplyDiscounts(discounts: seq<Discount>, discountCode: NullableString, order: TrackedOrder)
    returns (outcome: Outcome)
    modifies order`discountId, order`lineItems
    ensures Applied(outcome, order.discountId, order.lineItems)
         == DiscountEffect(discounts, discountCode, old(order.discountId), old(order.lineItems))
  {
    var found := Linq.SingleOrDefault(discounts, HasCode(discountCode));
    if found.Failure? {
      return Fail(found.error);
    }
    if found.value.None? {
      return Fail(DiscountCodeNotFound);
    }
    var discount := found.value.value;
    order.discountId := Some(discount.discountId);
    if discount.discountType == GeneralDiscountType {
      ApplyGeneralDiscount(discount, order);
    } else if discount.discountType == BuyOneGetOneFreeType {
      ApplyBogofDiscount(discount, order);
    } else {
      return Fail(ArgumentOutOfRange);
    }
    outcome := Pass;
  }
}
