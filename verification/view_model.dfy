/**
 * `MainViewModel`: the form state the entry screen edits, the records it
 * hands to the repository, and the latest value of the record list.
 */
module ViewModel {
  import opened Optional
  import opened KotlinText
  import opened Entities
  import opened Validation
  import opened FormState
  import opened Projection

  class MainViewModel {
    /** The value of `_formState`. */
    var formState: InputFormState
    /** The records passed to the repository's `addUserData`, oldest first. */
    var saved: seq<UserDataEntity>
    /** The latest value of `allUsersData`. */
    var allUsersData: UiState<seq<UserDataItem>>

    /**
     * The form never shows a stale error, and every record handed to the
     * repository passed all four validators.
     */
    ghost predicate Valid()
      reads this
    {
      && ErrorsCurrent(formState)
      && forall i :: 0 <= i < |saved| ==> Admissible(saved[i])
    }

    /** A fresh view model: an empty form, nothing saved, the list still `Loading`. */
    constructor ()
      ensures Valid()
      ensures formState == InputFormState() && saved == [] && allUsersData == Loading
    {
      formState := InputFormState();
      saved := [];
      allUsersData := Loading;
      InitialErrorsCurrent();
    }

    /** The store emits its current rows; `allUsersData` becomes their projection. */
    method OnRowsEmitted(rows: seq<UserDataEntity>)
      requires Valid()
      modifies this
      ensures Valid()
      ensures allUsersData == ProjectUsers(rows) && allUsersData != Loading
      ensures formState == old(formState) && saved == old(saved)
    {
      allUsersData := ProjectUsers(rows);
    }

    method UpdateName(name: string)
      requires Valid()
      modifies this
      ensures Valid()
      ensures formState == WithText(old(formState), Name, name)
      ensures saved == old(saved) && allUsersData == old(allUsersData)
    {
      WithTextKeepsErrorsCurrent(formState, Name, name);
      formState := WithText(formState, Name, name);
    }

    method UpdateAge(age: string)
      requires Valid()
      modifies this
      ensures Valid()
      ensures formState == WithText(old(formState), Age, age)
      ensures saved == old(saved) && allUsersData == old(allUsersData)
    {
      WithTextKeepsErrorsCurrent(formState, Age, age);
      formState := WithText(formState, Age, age);
    }

    method UpdateDob(dob: string)
      requires Valid()
      modifies this
      ensures Valid()
      ensures formState == WithText(old(formState), Dob, dob)
      ensures saved == old(saved) && allUsersData == old(allUsersData)
    {
      WithTextKeepsErrorsCurrent(formState, Dob, dob);
      formState := WithText(formState, Dob, dob);
    }

    method UpdateAddress(address: string)
      requires Valid()
      modifies this
      ensures Valid()
      ensures formState == WithText(old(formState), Address, address)
      ensures saved == old(saved) && allUsersData == old(allUsersData)
    {
      WithTextKeepsErrorsCurrent(formState, Address, address);
      formState := WithText(formState, Address, address);
    }

    /**
     * `saveUserData`, as one atomic step. A valid form is saved as one new
     * record and left as it is, showing no error; an invalid one saves
     * nothing and shows all four validators' verdicts.
     */
    method SaveUserData()
      requires Valid()
      modifies this
      ensures Valid()
      ensures allUsersData == old(allUsersData)
      ensures AllValid(old(formState)) ==>
        && saved == old(saved) + [ToEntity(old(formState))]
        && formState == old(formState)
        && forall field :: Error(formState, field) == None
      ensures !AllValid(old(formState)) ==>
        && saved == old(saved)
        && formState == WithAllErrors(old(formState))
    {
      var state := formState;
      var nameError := ValidateName(state.name);
      var ageError := ValidateAge(state.age);
      var dobError := ValidateDob(state.dob);
      var addressError := ValidateAddress(state.address);

      if nameError == None && ageError == None && dobError == None && addressError == None {
        AcceptedAgeParses(state.age);
        var userDataEntity := UserDataEntity(
          name := state.name,
          age := ToInt(state.age),
          dob := state.dob,
          address := state.address
        );
        assert userDataEntity == ToEntity(state);
        saved := saved + [userDataEntity];
        forall field ensures Error(formState, field) == None {
          ValidFormShowsNoError(state, field);
        }
      } else {
        WithAllErrorsKeepsErrorsCurrent(state);
        formState := state.(
          nameError := nameError,
          ageError := ageError,
          dobError := dobError,
          addressError := addressError
        );
      }
    }
  }
}
