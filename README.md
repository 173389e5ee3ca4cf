# RichDomains order pricing and line-item lifecycle, in Dafny

This project models the order core of the RichDomains sample shop (C#/.NET) and proves
properties of it. It has two layers, and each is modelled on its own terms because the shop's
two layers compile against different revisions of the `Order`/`LineItem` entities.

- **Domain layer** (`domain.dfy`, `order_validator.dfy`). The `LineItem` entity is a class whose
  init-only properties are `const` fields and whose privately set properties are `var` fields,
  changed only by `Update`, `UpdateTotal` and `Expire`. Discounts are values: `GeneralDiscount`
  and `BuyOneGetOneFreeDiscount` build them, and `Calculate` reprices the order's line items in
  place. The `Order` constructor builds one line item per input, records the discount and then
  lets it reprice the lines. `OrderValidator.Validate` collects keyed errors without stopping at
  the first.
- **Application layer** (`discount_calculator.dfy`, `order_request_validator.dfy`,
  `order_creator.dfy`, `order_updater.dfy`, `order_reader.dfy`). These services work against a
  store. In `persistence.dfy` the store is a `Database` object: the product and discount tables
  are sequences queried with the LINQ operators of `linq.dfy`, and committed orders are values
  (`OrderRow`) keyed by OrderId. An order being worked on is a `TrackedOrder` object. Its
  changes reach the store only through `InsertAndSave` or `Save`. This is why the model can show
  what the update service commits and what it only answers: an exception thrown by
  `ApplyDiscounts` after the update's save is answered as a failure while the save stays
  committed (`OrderUpdater.UpdateEffect`), since no transaction rolls it back.
- `order_round_trips.dfy` compares what create and update answer with what a later read of the
  same order returns.

Conventions:
- Money is `real`, so decimal arithmetic is exact.
- Timestamps are `int`. The wall clock is a `now` parameter, and `default(DateTime)` is
  `DefaultTimestamp` (0).
- A C# `string` that may be null is `NullableString` (`Option<string>`). `IsNullOrWhiteSpace`
  uses .NET's exact set of white-space characters.
- An exception is a `Failure` value returned in a `Result`. `ValidationException` carries its
  message and error dictionary. `NotFoundException`, `InvalidOperationException` (from `Single`
  and `SingleOrDefault`) and `ArgumentOutOfRangeException` are the other cases.
- `DiscountType` is an `int`, so the calculator's `default:` branch for values outside the enum
  is reachable.

Where the tests and the code disagree, the model follows the code:
- The update tests call an `Order.Create(..., validator, out errors)` that `Domain/Order.cs` does
  not have. The model has only the public constructor.
- The update tests expect old line items to be soft-expired. `OrderUpdater.Update` clears them
  and re-adds the requested ones, so `OrderUpdater.UpdatedRow` keeps only the requested lines.
- The create tests expect lower-case error keys such as `"firstName"`. The application
  validators emit `"FirstName"` (create) and `"FIRST NAME"` (update). Only the domain
  `OrderValidator` uses lower-case keys.
- The create tests read `Created`, `LastModified` and `ProductId` back from the response.
  `OrderCreator.Create` never sets them, so `OrderCreator.CreatedResponse` leaves them at their
  defaults.
- `Client.Dtos/Requests/CreateOrderRequestDto.cs` declares no `DiscountCode`, and
  `Client.Dtos/Orders/OrderDto.cs` declares no timestamps. The services and tests use both, so
  `Dtos` includes them.

## Model

| member | source | states |
|---|---|---|
| Domain.GeneralDiscount | Domain/Discount.cs:33-36 | a general discount has the general type and keeps the id, code and percentage it was given |
| Domain.BuyOneGetOneFreeDiscount | Domain/Discount.cs:49-51 | a BOGOF discount has the BOGOF type and a null percentage |
| Domain.PricingWithoutReduction | Domain/Discount.cs:38-62 | with no discount, a general discount with a null percentage, or BOGOF on at most one unit, a line keeps unit cost × quantity |
| Domain.BogofChargesHalfRoundedUp | Domain/Discount.cs:53-62 | on a base total, BOGOF charges for ⌈q/2⌉ units; an even quantity pays exactly half its total |
| Domain.BogofStableOnOddQuantities | Domain/Discount.cs:59-60 | an odd quantity above one is repriced from the unit cost alone, so the prior total does not matter and a second application changes nothing |
| Domain.BogofCompoundsOnEvenQuantities | Domain/Discount.cs:57-58 | applying BOGOF twice to an even quantity leaves a quarter of the total |
| Domain.DiscountNeverRaisesBaseTotal | Domain/Discount.cs:38-62 | with non-negative prices and a percentage in [0, 1], no discount makes a base total negative or larger |
| Domain.PricingExamples | Application.Tests/OrderCreatorTests.cs:317-412 | the totals the tests expect: 100 and 400 undiscounted, 90 and 360 at 10%, and 300 for BOGOF on 4 and on 3 units at 150 |
| Domain.LineItem.constructor | Domain/LineItem.cs:7-23 | a new line copies the product's id, Sku and unit cost, is priced at unit cost × quantity, is not expired, and both timestamps are now |
| Domain.LineItem.Update | Domain/LineItem.cs:42-51 | the same quantity changes nothing, LastModified included; a new quantity reprices the line from its unit cost and refreshes LastModified; only Quantity, TotalCost and LastModified can change |
| Domain.LineItem.UpdateTotal | Domain/LineItem.cs:53-58 | the total becomes the given one and LastModified is refreshed; nothing else changes |
| Domain.LineItem.Expire | Domain/LineItem.cs:60-65 | IsExpired becomes true and LastModified is refreshed; nothing else changes, and no method sets IsExpired back to false |
| Domain.NewLineItems | Domain/Order.cs:26 | one new line item per input, in input order, all distinct, so the HashSet has one member per input |
| Domain.CalculateGeneral | Domain/Discount.cs:38-42 | every line's total becomes total × (1 − percentage), with a null percentage read as 0; quantities, unit costs and expiry are untouched |
| Domain.CalculateBuyOneGetOneFree | Domain/Discount.cs:53-62 | lines of at most one unit are untouched; even quantities halve their total; odd quantities above one become unit cost + (q − 1) × unit cost / 2 |
| Domain.Calculate | Domain/Discount.cs:26 | dispatches to the override of the discount's variant; a line's LastModified is refreshed exactly when the variant rewrites it |
| Domain.PriceNewLines | Domain/Order.cs:30 | after `Discount?.Calculate(this)`, each new line carries the priced total for its input: the base total without a discount, the discounted one with it |
| Domain.Order.constructor | Domain/Order.cs:12-31 | the customer fields are stored as given; DiscountId is the discount's id, or null; there is one line per input with the input's product and quantity, priced for the discount only after all lines exist |
| OrderValidator.Validate | Domain/Services/OrderValidator.cs:5-26 | each of the four keys is present exactly when its check fails, all checks run, each key has its message, and the result is true exactly when the map is empty |
| Linq.Single | Application/Orders/OrderCreator.cs:54 | succeeds exactly when one element matches and returns it; otherwise InvalidOperation |
| Linq.SingleOrDefault | Application/Discounts/DiscountCalculator.cs:19 | null when nothing matches, the element when exactly one does, InvalidOperation when several do |
| Linq.WhereKeepsCount | Application/Orders/OrderCreator.cs:42-54 | filtering by a weaker condition first keeps the number of elements that match |
| Linq.WhereKeepsFirst | Application/Orders/OrderCreator.cs:42-54 | filtering by a weaker condition first keeps the first element that matches |
| Linq.DistinctToSetCardinality | Domain/Order.cs:26 | distinct elements turned into a set give as many members as elements |
| DiscountCalculator.ApplyGeneralDiscount | Application/Discounts/DiscountCalculator.cs:43-50 | each line's total is multiplied by 1 − percentage (null read as 0); nothing else in the line changes |
| DiscountCalculator.ApplyBogofDiscount | Application/Discounts/DiscountCalculator.cs:52-62 | the BOGOF rule per line, and no other change |
| DiscountCalculator.ApplyDiscounts | Application/Discounts/DiscountCalculator.cs:16-41 | the order's DiscountId and lines after the call, and the outcome, are exactly `DiscountEffect` of the old DiscountId and lines |
| DiscountCalculator.DiscountEffectCases | Application/Discounts/DiscountCalculator.cs:16-41 | an unknown code fails with the "discountCode" error and changes nothing; a found discount's id is recorded even when its type is out of range; a known type reprices every line; no outcome changes a quantity, unit cost, Sku, product or the number of lines |
| OrderRequestValidator.IsValidRequest | Application/Validation/OrderRequestValidator.cs:7-24 | as written: the FirstName, LastName and Address keys are all present exactly when FirstName is blank; LineItems when there are no items; valid exactly when the map is empty |
| OrderRequestValidator.BlankLastNameAndAddressAccepted | Application/Validation/OrderRequestValidator.cs:14-18 | a request with a first name and an item but a blank last name and no address is accepted with an empty error map |
| OrderRequestValidator.IsValidRequestAsIntended | Application/Validation/OrderRequestValidator.cs:7-24 | corrected: each key is present exactly when its own field is blank, and valid exactly when every field is present and there are items |
| OrderCreator.AddLineItems | Application/Orders/OrderCreator.cs:52-65 | succeeds exactly when every requested Sku names exactly one product, adding one line per item in request order; fails with InvalidOperation otherwise |
| OrderCreator.FetchedResolveAlike | Application/Orders/OrderCreator.cs:40-54 | resolving against the products fetched for the requested Skus succeeds and gives the same lines as resolving against the whole table |
| OrderCreator.BuiltOrderPricedLikeDomainOrder | Application/Orders/OrderCreator.cs:52-68 | a built order has one line per item, in request order, with the product of its Sku and the requested quantity, priced as a domain order with the same discount would price it; the applied discount holds the code and is recorded |
| OrderCreator.BuiltOrderFailures | Application/Orders/OrderCreator.cs:54-68 | an unresolvable Sku fails with InvalidOperation; with every Sku resolved, a blank code never fails and an unknown code fails with the "discountCode" error |
| OrderCreator.Build | Application/Orders/OrderCreator.cs:40-68 | the new tracked order holds exactly `BuiltOrder`, or the call fails with its error |
| OrderCreator.Create | Application/Orders/OrderCreator.cs:35-88 | an invalid request fails with the validator's errors; otherwise the built order is committed under a fresh OrderId and the response is projected from it, and nothing is committed on any failure |
| OrderUpdater.Validate | Application/Orders/OrderUpdater.cs:85-102 | the four upper-case keys are each present exactly when their IsNullOrEmpty or empty-list check fails, with their messages |
| OrderUpdater.Overwrite | Application/Orders/OrderUpdater.cs:38-58 | OrderId and Created come from the request, LastModified is now, the customer fields and the lines are the request's (copied verbatim, not expired), and DiscountId is kept |
| OrderUpdater.Update | Application/Orders/OrderUpdater.cs:25-83 | validation comes before the lookup; a missing order fails with not-found and changes nothing; otherwise the overwritten order is committed, then the discount is applied to the answer only (`UpdateEffect`) |
| OrderUpdater.UpdateAsIntended | Application/Orders/OrderUpdater.cs:25-83 | corrected: the discount is applied before the save, so a failing code commits nothing and a valid one is committed (`UpdateEffectAsIntended`) |
| OrderReader.DiscountCodeOf | Application/Orders/OrderReader.cs:35 | the code of a discount whose id is the order's DiscountId, or null exactly when no discount has that id |
| OrderReader.Read | Application/Orders/OrderReader.cs:17-49 | not-found exactly when no order has the id; otherwise the stored fields, the related discount's code and every stored line, expired ones included, with both line timestamps set to the read time |
| OrderRoundTrips.ReadAfterCreate | Application/Orders/OrderCreator.cs:70-87 | reading a created order back gives the create response's customer fields and line Skus, quantities and costs, and the real product ids; the discount code matches when it was not blank and is null when it was |
| OrderRoundTrips.ReadAfterUpdateAsIntended | Application/Orders/OrderUpdater.cs:60-82 | for a non-empty discount code, with the corrected update, reading the order back gives what the update answered: the fields, Created, the discount code and every line |
| OrderRoundTrips.ReadAfterUpdateBlankCode | Application/Orders/OrderUpdater.cs:38-82 | for a null or empty code, both versions of the update commit the same thing; reading it back gives the answered fields, Created and lines, but the code of the DiscountId the stored order already had, while the answer carries the request's code |
| OrderRoundTrips.BlankCodeKeepsStoredDiscount | Application/Orders/OrderUpdater.cs:38-82 | a concrete update with no code of an order that has a 10% discount: the answer has no code, and a re-read gives the discount's code |
| OrderRoundTrips.UpdateCommitsUndiscounted | Application/Orders/OrderUpdater.cs:60-63 | as written, the committed row is the request over the stored order: the totals are as sent and the DiscountId is unchanged |
| OrderRoundTrips.UpdatedDiscountNotCommitted | Application/Orders/OrderUpdater.cs:60-63 | a concrete update that answers a discounted total of 90 and the code, while a re-read gives 100 and no code |
| Common.BlankTestsDiffer | Application/Orders/OrderUpdater.cs:89-96 | every null-or-empty string is null-or-white-space, but " " passes the update validator's IsNullOrEmpty check and fails the create validators' IsNullOrWhiteSpace check |
| Persistence.Database.InsertAndSave | Application/Orders/OrderCreator.cs:70-71 | the order gets an id no committed order has, and exactly that row is added |
| Persistence.Database.Save | Application/Orders/OrderUpdater.cs:60 | the order's current values replace its committed row; no other row changes |

## Left out

- DataAccess (the EF mapping, `Repository`, `UnitOfWork`), the web host and controller, the
  dependency-injection wiring and the stale stub files are not part of this model. The store is
  abstracted by `Persistence.Database`.
- The wall clock is the `now` parameter, and a single instant is used throughout one
  operation. The read time of `OrderReader.Read` is a separate parameter.
- Decimal precision and the "money" column's rounding are not modelled: totals are exact reals.
- Null collections (a request whose `LineItems` is null) are not modelled. In C# they throw a
  NullReferenceException; here a list is always present.
- Domain.Order.constructor: requires a discount of one of the two known variants. An abstract
  `Discount` cannot be instantiated in C#, so every discount the constructor receives has a
  `Calculate` override.
- Domain.Order.constructor: the HashSet's iteration order is not observable. The ghost
  `itemOrder` records input order for the proofs only. The read-only `LineItems` view is the
  function `LineItems()`, since Dafny has no separate read-only collection type.
- Navigation properties (`LineItem.Order`, `LineItem.Product`, `Order.Discount`) are plain
  references or values. EF relationship fix-up is not modelled: `Order.Discount` is looked up
  through DiscountId by `OrderReader.DiscountCodeOf`.
- The application-layer line rows (`Persistence.LineItemRow`) do not carry their own Created or
  LastModified values. None of the application services sets them.
- `order.LineItems.Clear()` in the update is modelled as replacing the order's line list in the
  committed row. What becomes of the removed line rows in the program's store is not modelled:
  OrderId is part of their key, and the relationship is mapped with client-set-null delete
  behaviour (DataAccess/OrderDemoContext.cs:49-68).
- The line-item table's (OrderId, ProductId) key is not modelled. `Persistence.Database` keeps an
  order's lines as a list, so it can hold two lines for one product; the program's store cannot.
- The order lookups in the update and the read (`Get(x => x.OrderId == id).SingleOrDefault()`)
  are map lookups. OrderId is the key, so at most one order matches.
- OrderCreator.Create: calls the corrected `IsValidRequestAsIntended`. The as-written validator
  and its defect are kept and proved separately (see Findings).
- OrderCreator.Create: a request that names one Sku twice is built and committed with two lines
  for the same product, because the store model has no (OrderId, ProductId) key to reject it.
- OrderRoundTrips.ReadAfterUpdateAsIntended: covers non-empty discount codes only. With a null
  or empty code the answer echoes the request's code while the store keeps the DiscountId the
  order already had, in both versions of the update; `ReadAfterUpdateBlankCode` states that case.

## Findings

| source | as written | input that shows it | evidently intended | confidence | as-written member | corrected member |
|---|---|---|---|---|---|---|
| Application/Validation/OrderRequestValidator.cs:14-18 | the last-name and address checks both test `FirstName` | FirstName "FIRSTNAME", LastName "", Address null, one item: accepted with no errors | each check tests its own field, so a blank last name or address is rejected | high; not executed | OrderRequestValidator.IsValidRequest, OrderRequestValidator.BlankLastNameAndAddressAccepted | OrderRequestValidator.IsValidRequestAsIntended |
| Application/Orders/OrderUpdater.cs:60-63 | the discount is applied after the only `Save`, so its DiscountId and totals are never committed although the response shows them | order 1 with one line of 2 × 50.00 = 100.00, updated with the code of a 10% general discount: the response says 90.00 and the code; a re-read gives 100.00 and no code | apply the discount before saving, as `OrderCreator.Create` does, so that for a non-empty code the response and the store agree | medium; not executed | OrderUpdater.Update, OrderRoundTrips.UpdatedDiscountNotCommitted | OrderUpdater.UpdateAsIntended, OrderRoundTrips.ReadAfterUpdateAsIntended |
