/** Values shared by every layer: optional values, results, the failures the services raise,
    and the .NET string tests the validators rely on. */
module Common {

  datatype Option<+T> = None | Some(value: T)

  datatype Result<+T, +E> = Success(value: T) | Failure(error: E)

  /** Exceptions the services raise, as values. */
  datatype Failure =
    /** Application.Exceptions.ValidationException: a message and a field-keyed error map. */
    | ValidationFailure(message: string, errors: map<string, string>)
    /** NotFoundException. */
    | NotFound(message: string)
    /** ArgumentOutOfRangeException from a switch over an enum value it does not know. */
    | ArgumentOutOfRange
    /** InvalidOperationException from LINQ Single/SingleOrDefault (no match, or more than one). */
    | InvalidOperation

  /** A method that either completes or raises. */
  datatype Outcome = Pass | Fail(error: Failure)

  /** A .NET string reference, which may be null. */
  type NullableString = Option<string>

  /** char.IsWhiteSpace: the Unicode space, line and paragraph separators, plus U+0009..U+000D and U+0085. */
  predicate IsWhiteSpace(c: char)
  {
    || c == ' ' || ('\t' <= c <= '\r') || c == '\U{85}' || c == '\U{A0}' || c == '\U{1680}'
    || ('\U{2000}' <= c <= '\U{200A}') || c == '\U{2028}' || c == '\U{2029}' || c == '\U{202F}'
    || c == '\U{205F}' || c == '\U{3000}'
  }

  /** string.IsNullOrWhiteSpace. */
  predicate IsNullOrWhiteSpace(s: NullableString)
  {
    s.None? || forall i :: 0 <= i < |s.value| ==> IsWhiteSpace(s.value[i])
  }

  /** string.IsNullOrEmpty. */
  predicate IsNullOrEmpty(s: NullableString)
  {
    s.None? || s.value == ""
  }

  /** Dictionary.Add: inserts a new key; the dictionary throws if the key is already present,
      which the precondition rules out for every caller in this model. */
  function AddError(errors: map<string, string>, key: string, message: string): (r: map<string, string>)
    requires key !in errors
    ensures r.Keys == errors.Keys + {key} && r[key] == message
    ensures forall k :: k in errors ==> r[k] == errors[k]
  {
    errors[key := message]
  }

  /** An empty string is blank for both tests, but a whitespace-only string is blank only for
      IsNullOrWhiteSpace: the two validators that use different tests disagree on it. */
  lemma BlankTestsDiffer()
    ensures forall s: NullableString :: IsNullOrEmpty(s) ==> IsNullOrWhiteSpace(s)
    ensures IsNullOrWhiteSpace(Some(" ")) && !IsNullOrEmpty(Some(" "))
    ensures !IsNullOrWhiteSpace(Some("x"))
  {
    assert IsWhiteSpace(" "[0]);
    assert !IsWhiteSpace("x"[0]);
  }
}
