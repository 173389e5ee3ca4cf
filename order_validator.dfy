/** Domain.Services.OrderValidator: checks the customer fields and the presence of line items,
    collecting every failure instead of stopping at the first. */
module OrderValidator {
  import opened Common
  import opened Domain

  /** Adds one keyed error per failed rule (blank first name, blank last name, blank address,
      no line items) and reports success exactly when none was added. */
  method Validate(firstName: NullableString, lastName: NullableString, address: NullableString,
                  lineItems: seq<SetLineItemInput>)
    returns (valid: bool, errors: map<string, string>)
    ensures valid <==> errors == map[]
    ensures valid <==>
      !IsNullOrWhiteSpace(firstName) && !IsNullOrWhiteSpace(lastName) && !IsNullOrWhiteSpace(address) && lineItems != []
    ensures "firstName" in errors <==> IsNullOrWhiteSpace(firstName)
    ensures "lastName" in errors <==> IsNullOrWhiteSpace(lastName)
    ensures "address" in errors <==> IsNullOrWhiteSpace(address)
    ensures "lineItems" in errors <==> lineItems == []
    ensures errors.Keys <= {"firstName", "lastName", "address", "lineItems"}
    ensures "firstName" in errors ==> errors["firstName"] == "First name is required"
    ensures "lastName" in errors ==> errors["lastName"] == "Last name is required"
    ensures "address" in errors ==> errors["address"] == "Address is required"
    ensures "lineItems" in errors ==> errors["lineItems"] == "Line Items are required"
  {
    errors := map[];
    if IsNullOrWhiteSpace(firstName) {
      errors := AddError(errors, "firstName", "First name is required");
    }
    if IsNullOrWhiteSpace(lastName) {
      errors := AddError(errors, "lastName", "Last name is required");
    }
    if IsNullOrWhiteSpace(address) {
      errors := AddError(errors, "address", "Address is required");
    }
    if lineItems == [] {
      errors := AddError(errors, "lineItems", "Line Items are required");
    }
    valid := errors == map[];
  }
}
