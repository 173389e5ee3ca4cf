/** Application.Validation.OrderRequestValidator: checks a create request before any product is
    looked up. As written, the last-name and address checks both test FirstName; the version
    the checks evidently intend is modelled beside it. */
module OrderRequestValidator {
  import opened Common
  import opened Dtos

  const FirstNameMessage := "First name is required"
  const LastNameMessage := "Last name is required"
  const AddressMessage := "Address is required"
  const LineItemsMessage := "Line Items are required"

  /** A request IsValidRequest accepts: only the first name and the line items decide it. */
  predicate AcceptsRequest(request: CreateOrderRequestDto)
  {
    !IsNullOrWhiteSpace(request.firstName) && request.lineItems != []
  }

  /** The map IsValidRequest builds. The "LastName" and "Address" keys are added exactly when
      FirstName is blank. */
  predicate IsRequestErrorMap(request: CreateOrderRequestDto, errors: map<string, string>)
  {
    && ("FirstName" in errors <==> IsNullOrWhiteSpace(request.firstName))
    && ("LastName" in errors <==> IsNullOrWhiteSpace(request.firstName))
    && ("Address" in errors <==> IsNullOrWhiteSpace(request.firstName))
    && ("LineItems" in errors <==> request.lineItems == [])
    && errors.Keys <= {"FirstName", "LastName", "Address", "LineItems"}
    && ("FirstName" in errors ==> errors["FirstName"] == FirstNameMessage)
    && ("LastName" in errors ==> errors["LastName"] == LastNameMessage)
    && ("Address" in errors ==> errors["Address"] == AddressMessage)
    && ("LineItems" in errors ==> errors["LineItems"] == LineItemsMessage)
  }

  /** IsValidRequest as written. */
  method IsValidRequest(request: CreateOrderRequestDto) returns (valid: bool, errors: map<string, string>)
    ensures valid <==> errors == map[]
    ensures valid <==> AcceptsRequest(request)
    ensures IsRequestErrorMap(request, errors)
  {
    errors := map[];
    if IsNullOrWhiteSpace(request.firstName) {
      errors := AddError(errors, "FirstName", FirstNameMessage);
    }
    if IsNullOrWhiteSpace(request.firstName) {
      errors := AddError(errors, "LastName", LastNameMessage);
    }
    if IsNullOrWhiteSpace(request.firstName) {
      errors := AddError(errors, "Address", AddressMessage);
    }
    if request.lineItems == [] {
      errors := AddError(errors, "LineItems", LineItemsMessage);
    }
    valid := errors == map[];
  }

  /** A request with a first name and items but a blank last name and no address passes, and
      the error map IsValidRequest builds for it is empty. */
  lemma BlankLastNameAndAddressAccepted()
    ensures var request := CreateOrderRequestDto(Some("FIRSTNAME"), Some(""), None, [LineItemRequestDto("SKU1", 1)], None);
      && IsNullOrWhiteSpace(request.lastName) && IsNullOrWhiteSpace(request.address)
      && AcceptsRequest(request)
      && forall errors :: IsRequestErrorMap(request, errors) ==> errors == map[]
  {
    var request := CreateOrderRequestDto(Some("FIRSTNAME"), Some(""), None, [LineItemRequestDto("SKU1", 1)], None);
    assert !IsWhiteSpace(request.firstName.value[0]);
    forall errors | IsRequestErrorMap(request, errors)
      ensures errors == map[]
    {
      assert errors.Keys == {};
    }
  }

  /** A request the corrected validator accepts: every customer field and the line items. */
  predicate AcceptsRequestAsIntended(request: CreateOrderRequestDto)
  {
    && !IsNullOrWhiteSpace(request.firstName) && !IsNullOrWhiteSpace(request.lastName)
    && !IsNullOrWhiteSpace(request.address) && request.lineItems != []
  }

  /** The map the corrected validator builds: one key per blank field, with its own message. */
  predicate IsIntendedRequestErrorMap(request: CreateOrderRequestDto, errors: map<string, string>)
  {
    && ("FirstName" in errors <==> IsNullOrWhiteSpace(request.firstName))
    && ("LastName" in errors <==> IsNullOrWhiteSpace(request.lastName))
    && ("Address" in errors <==> IsNullOrWhiteSpace(request.address))
    && ("LineItems" in errors <==> request.lineItems == [])
    && errors.Keys <= {"FirstName", "LastName", "Address", "LineItems"}
    && ("FirstName" in errors ==> errors["FirstName"] == FirstNameMessage)
    && ("LastName" in errors ==> errors["LastName"] == LastNameMessage)
    && ("Address" in errors ==> errors["Address"] == AddressMessage)
    && ("LineItems" in errors ==> errors["LineItems"] == LineItemsMessage)
  }

  /** IsValidRequest with each check testing its own field. */
  method IsValidRequestAsIntended(request: CreateOrderRequestDto) returns (valid: bool, errors: map<string, string>)
    ensures valid <==> errors == map[]
    ensures valid <==> AcceptsRequestAsIntended(request)
    ensures IsIntendedRequestErrorMap(request, errors)
  {
    errors := map[];
    if IsNullOrWhiteSpace(request.firstName) {
      errors := AddError(errors, "FirstName", FirstNameMessage);
    }
    if IsNullOrWhiteSpace(request.lastName) {
      errors := AddError(errors, "LastName", LastNameMessage);
    }
    if IsNullOrWhiteSpace(request.address) {
      errors := AddError(errors, "Address", AddressMessage);
    }
    if request.lineItems == [] {
      errors := AddError(errors, "LineItems", LineItemsMessage);
    }
    valid := errors == map[];
  }
}
