/** The @TrimString constraint: a value may not begin or end with whitespace. */
module TrimStringValidator {
  import opened Domain
  import opened JavaString

  /** The default message of @TrimString. */
  const DefaultMessage: string := "field cannot have blank spaces at the end or the begin"

  /** s begins or ends with a char that String.trim would strip. */
  predicate HasSurroundingBlank(s: string) {
    |s| > 0 && (IsTrimmable(s[0]) || IsTrimmable(s[|s| - 1]))
  }

  /** isValid: null passes; otherwise trim() must not change length(). The
      validator context is accepted and ignored. */
  function IsValid<C>(value: Option<string>, context: C): (valid: bool)
    ensures valid <==> value.None? || !HasSurroundingBlank(value.value)
  {
    if value.None? then true
    else
      TrimKeepsLength(value.value);
      TrimIdentity(value.value);
      JavaLength(Trim(value.value)) == JavaLength(value.value)
  }

  /** The verdict depends on the value alone. */
  lemma ContextIgnored<C>(value: Option<string>, c1: C, c2: C)
    ensures IsValid(value, c1) == IsValid(value, c2)
  {
  }

  /** The empty string passes the rule. */
  lemma EmptyIsValid<C>(context: C)
    ensures IsValid(Some(""), context)
  {
  }

  /** A leading space fails the rule. */
  lemma LeadingSpaceIsInvalid<C>(context: C)
    ensures !IsValid(Some(" Mariazinha"), context)
  {
    assert " Mariazinha"[0] == ' ';
  }

  /** Whatever trim returns passes the rule. */
  lemma TrimmedIsValid<C>(s: string, context: C)
    ensures IsValid(Some(Trim(s)), context)
  {
  }
}
