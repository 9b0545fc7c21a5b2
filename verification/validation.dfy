/**
 * The four field validators of the entry form. Each maps the field's text
 * to `None` (valid) or to the message shown under the field.
 */
module Validation {
  import opened Optional
  import opened KotlinText

  const NameEmpty := "Name cannot be empty"
  const AgeNotNumber := "Age must be a number"
  const AgeNegative := "Age cannot be negative"
  const DobEmpty := "DOB cannot be empty"
  const AddressEmpty := "Address cannot be empty"

  /** Rejects a blank name. */
  function ValidateName(name: string): (r: Option<string>)
    ensures r == None <==> !IsBlank(name)
    ensures r == None <==> Trim(name) != []
    ensures r.Some? ==> r.value == NameEmpty
  {
    BlankIffTrimEmpty(name);
    if IsBlank(name) then Some(NameEmpty) else None
  }

  /**
   * Rejects an age that `toIntOrNull` cannot read (this includes text with
   * whitespace and values outside the `Int` range), then a negative age.
   */
  function ValidateAge(age: string): (r: Option<string>)
    ensures r == None <==> ToIntOrNull(age).Some? && ToIntOrNull(age).value >= 0
    ensures r == Some(AgeNotNumber) <==> ToIntOrNull(age).None?
    ensures r == Some(AgeNegative) <==> ToIntOrNull(age).Some? && ToIntOrNull(age).value < 0
  {
    var ageInt := ToIntOrNull(age);
    if ageInt.None? then Some(AgeNotNumber)
    else if ageInt.value < 0 then Some(AgeNegative)
    else None
  }

  /** Rejects a blank date of birth. */
  function ValidateDob(dob: string): (r: Option<string>)
    ensures r == None <==> !IsBlank(dob)
    ensures r == None <==> Trim(dob) != []
    ensures r.Some? ==> r.value == DobEmpty
  {
    BlankIffTrimEmpty(dob);
    if IsBlank(dob) then Some(DobEmpty) else None
  }

  /** Rejects a blank address. */
  function ValidateAddress(address: string): (r: Option<string>)
    ensures r == None <==> !IsBlank(address)
    ensures r == None <==> Trim(address) != []
    ensures r.Some? ==> r.value == AddressEmpty
  {
    BlankIffTrimEmpty(address);
    if IsBlank(address) then Some(AddressEmpty) else None
  }

  /** An accepted age is a non-blank text without whitespace, so `toInt()` on it succeeds. */
  lemma AcceptedAgeParses(age: string)
    requires ValidateAge(age) == None
    ensures !IsBlank(age)
    ensures forall i :: 0 <= i < |age| ==> !IsWhitespace(age[i])
    ensures ParseInt(age).Some? && ToInt(age) >= 0
  {
    ParsedTextHasNoWhitespace(age);
    ParseIntAgrees(age);
  }
}
