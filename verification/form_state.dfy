/**
 * The entry form's state (`InputFormState`): four texts, each with the
 * error message last shown for it, and the transitions the view model
 * applies to it.
 */
module FormState {
  import opened Optional
  import opened KotlinText
  import opened Entities
  import opened Validation

  /** Every field starts as the empty text with no error. */
  datatype InputFormState = InputFormState(
    name: string := "",
    nameError: Option<string> := None,
    age: string := "",
    ageError: Option<string> := None,
    dob: string := "",
    dobError: Option<string> := None,
    address: string := "",
    addressError: Option<string> := None
  )

  /** The four fields of the form. */
  datatype Field = Name | Age | Dob | Address

  function Text(f: InputFormState, field: Field): string {
    match field
    case Name => f.name
    case Age => f.age
    case Dob => f.dob
    case Address => f.address
  }

  function Error(f: InputFormState, field: Field): Option<string> {
    match field
    case Name => f.nameError
    case Age => f.ageError
    case Dob => f.dobError
    case Address => f.addressError
  }

  /** The validator of each field. */
  function Validate(field: Field, text: string): Option<string> {
    match field
    case Name => ValidateName(text)
    case Age => ValidateAge(text)
    case Dob => ValidateDob(text)
    case Address => ValidateAddress(text)
  }

  /** The initial form has empty texts and no errors. */
  lemma InitialFormIsEmpty(field: Field)
    ensures Text(InputFormState(), field) == "" && Error(InputFormState(), field) == None
  {
  }

  /**
   * The state after the user edits one field (`updateName`, `updateAge`,
   * `updateDob`, `updateAddress`): the new text, that field's error
   * recomputed, every other field as it was.
   */
  function WithText(f: InputFormState, field: Field, text: string): (g: InputFormState)
    ensures Text(g, field) == text && Error(g, field) == Validate(field, text)
    ensures forall other :: other != field ==> Text(g, other) == Text(f, other) && Error(g, other) == Error(f, other)
  {
    match field
    case Name => f.(name := text, nameError := ValidateName(text))
    case Age => f.(age := text, ageError := ValidateAge(text))
    case Dob => f.(dob := text, dobError := ValidateDob(text))
    case Address => f.(address := text, addressError := ValidateAddress(text))
  }

  /** Two form states are equal when every field's text and error are. */
  lemma {:induction false} FieldwiseEqual(f: InputFormState, g: InputFormState)
    requires forall field :: Text(f, field) == Text(g, field) && Error(f, field) == Error(g, field)
    ensures f == g
  {
    assert Text(f, Name) == Text(g, Name) && Error(f, Name) == Error(g, Name);
    assert Text(f, Age) == Text(g, Age) && Error(f, Age) == Error(g, Age);
    assert Text(f, Dob) == Text(g, Dob) && Error(f, Dob) == Error(g, Dob);
    assert Text(f, Address) == Text(g, Address) && Error(f, Address) == Error(g, Address);
  }

  /** Entering the same text twice is the same as entering it once. */
  lemma WithTextIdempotent(f: InputFormState, field: Field, text: string)
    ensures WithText(WithText(f, field, text), field, text) == WithText(f, field, text)
  {
    FieldwiseEqual(WithText(WithText(f, field, text), field, text), WithText(f, field, text));
  }

  /** Edits to two different fields do not interfere: their order does not matter. */
  lemma WithTextCommutes(f: InputFormState, a: Field, s: string, b: Field, t: string)
    requires a != b
    ensures WithText(WithText(f, a, s), b, t) == WithText(WithText(f, b, t), a, s)
  {
    FieldwiseEqual(WithText(WithText(f, a, s), b, t), WithText(WithText(f, b, t), a, s));
  }

  /** All four validators accept the current texts. */
  predicate AllValid(f: InputFormState) {
    && ValidateName(f.name) == None
    && ValidateAge(f.age) == None
    && ValidateDob(f.dob) == None
    && ValidateAddress(f.address) == None
  }

  /**
   * The state after a rejected save: every error set to its validator's
   * output for the current text, valid fields included; texts unchanged.
   */
  function WithAllErrors(f: InputFormState): (g: InputFormState)
    ensures forall field :: Text(g, field) == Text(f, field) && Error(g, field) == Validate(field, Text(f, field))
  {
    f.(
      nameError := ValidateName(f.name),
      ageError := ValidateAge(f.age),
      dobError := ValidateDob(f.dob),
      addressError := ValidateAddress(f.address)
    )
  }

  /** A rejected save shows at least one error. */
  lemma RejectedFormShowsError(f: InputFormState)
    requires !AllValid(f)
    ensures exists field :: Error(WithAllErrors(f), field).Some?
  {
    if ValidateName(f.name) != None {
      assert Error(WithAllErrors(f), Name).Some?;
    } else if ValidateAge(f.age) != None {
      assert Error(WithAllErrors(f), Age).Some?;
    } else if ValidateDob(f.dob) != None {
      assert Error(WithAllErrors(f), Dob).Some?;
    } else {
      assert Error(WithAllErrors(f), Address).Some?;
    }
  }

  /**
   * Every error shown is the one its validator gives for the current text,
   * or none: the form never shows a stale message.
   */
  ghost predicate ErrorsCurrent(f: InputFormState) {
    forall field :: Error(f, field) == None || Error(f, field) == Validate(field, Text(f, field))
  }

  lemma InitialErrorsCurrent()
    ensures ErrorsCurrent(InputFormState())
  {
  }

  lemma WithTextKeepsErrorsCurrent(f: InputFormState, field: Field, text: string)
    requires ErrorsCurrent(f)
    ensures ErrorsCurrent(WithText(f, field, text))
  {
  }

  lemma WithAllErrorsKeepsErrorsCurrent(f: InputFormState)
    ensures ErrorsCurrent(WithAllErrors(f))
  {
  }

  /** When all fields are valid, a form whose errors are current shows none. */
  lemma ValidFormShowsNoError(f: InputFormState, field: Field)
    requires ErrorsCurrent(f) && AllValid(f)
    ensures Error(f, field) == None
  {
  }

  /** What a stored record must satisfy: the constraints the validators enforce. */
  predicate Admissible(e: UserDataEntity) {
    !IsBlank(e.name) && e.age >= 0 && !IsBlank(e.dob) && !IsBlank(e.address)
  }

  /** The record `saveUserData` builds from a valid form: texts copied, age parsed, id left to the store. */
  function ToEntity(f: InputFormState): (e: UserDataEntity)
    requires AllValid(f)
    ensures e.id == 0 && e.name == f.name && e.dob == f.dob && e.address == f.address
    ensures ToIntOrNull(f.age) == Some(e.age)
    ensures Admissible(e)
  {
    BlankIffTrimEmpty(f.name);
    BlankIffTrimEmpty(f.dob);
    BlankIffTrimEmpty(f.address);
    ParseIntAgrees(f.age);
    NewEntity(f.name, ToInt(f.age), f.dob, f.address)
  }
}
