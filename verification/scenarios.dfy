/** Concrete inputs worked through the model. */
module Scenarios {
  import opened Optional
  import opened KotlinText
  import opened Entities
  import opened Validation
  import opened FormState
  import opened Projection
  import opened ViewModel

  /** Plain digit strings, with leading zeros and in another script. */
  lemma ToIntOrNullReadsDigits()
    ensures ToIntOrNull("30") == Some(30)
    ensures ToIntOrNull("007") == Some(7)
    ensures ToIntOrNull("\U{0663}\U{0660}") == Some(30)
  {
    assert "30"[..1] == "3";
    assert "\U{0663}\U{0660}"[..1] == "\U{0663}";
    assert "00"[..1] == "0";
    assert DigitsValue("00") == 0;
    assert "007"[..2] == "00";
    assert DigitsValue("007") == 7;
  }

  /** A sign followed by digits. */
  lemma ToIntOrNullAccepts()
    ensures ToIntOrNull("+7") == Some(7)
    ensures ToIntOrNull("-5") == Some(-5)
    ensures ToIntOrNull("-0") == Some(0)
  {
    assert "+7"[1..] == "7";
    assert "-5"[1..] == "5";
    assert "-0"[1..] == "0";
    assert DigitsValue("0") == 0;
  }

  /** Text that is not an optional sign followed by digits. */
  lemma ToIntOrNullRejects()
    ensures ToIntOrNull("") == None
    ensures ToIntOrNull("-") == None
    ensures ToIntOrNull("+") == None
    ensures ToIntOrNull(" 30") == None
    ensures ToIntOrNull("30 ") == None
    ensures ToIntOrNull("3.0") == None
    ensures ToIntOrNull("abc") == None
  {
    assert !AllDigits("30 ") by { assert DigitOf("30 "[2]) == -1; }
    assert !AllDigits("3.0") by { assert DigitOf("3.0"[1]) == -1; }
  }

  /** An empty form with a non-numeric age: all four fields are rejected. */
  lemma EmptyFormRejected()
    ensures var f := InputFormState(age := "abc");
      && !AllValid(f)
      && WithAllErrors(f) == f.(
           nameError := Some(NameEmpty),
           ageError := Some(AgeNotNumber),
           dobError := Some(DobEmpty),
           addressError := Some(AddressEmpty))
  {
  }

  /** A negative age is the only error; the other fields show none. */
  lemma NegativeAgeRejected()
    ensures var f := InputFormState(name := "Bo", age := "-5", dob := "x", address := "y");
      && !AllValid(f)
      && WithAllErrors(f) == f.(ageError := Some(AgeNegative))
  {
    ToIntOrNullReadsDigits();
    ToIntOrNullAccepts();
    assert !IsWhitespace("Bo"[0]) && !IsWhitespace("x"[0]) && !IsWhitespace("y"[0]);
  }

  /** A complete form becomes a record with the age parsed and the id left at 0. */
  lemma CompleteFormSaved()
    ensures var f := InputFormState(name := "Ann", age := "30", dob := "1/1/1994", address := "1 Main St");
      && AllValid(f)
      && ToEntity(f) == UserDataEntity(0, "Ann", 30, "1/1/1994", "1 Main St")
  {
    ToIntOrNullReadsDigits();
    ToIntOrNullAccepts();
    assert !IsWhitespace("Ann"[0]) && !IsWhitespace("1/1/1994"[0]) && !IsWhitespace("1 Main St"[0]);
  }

  /**
   * Rows with ids 1, 3, 1 are listed as 3, then the two rows with id 1 in
   * the order they were emitted.
   */
  lemma ProjectionOrdersNewestFirst()
    ensures var a := UserDataEntity(1, "Ann", 30, "1/1/1994", "1 Main St");
      var b := UserDataEntity(3, "Bo", 5, "x", "y");
      var c := UserDataEntity(1, "Cy", 40, "z", "w");
      && ProjectUsers([]) == Empty
      && ProjectUsers([a, b, c]) == Success([ToUserDataItem(b), ToUserDataItem(a), ToUserDataItem(c)])
  {
    var a := UserDataEntity(1, "Ann", 30, "1/1/1994", "1 Main St");
    var b := UserDataEntity(3, "Bo", 5, "x", "y");
    var c := UserDataEntity(1, "Cy", 40, "z", "w");
    var ia, ib, ic := ToUserDataItem(a), ToUserDataItem(b), ToUserDataItem(c);
    var items := MapToItems([a, b, c]);
    assert items == [ia, ib, ic];
    assert items[1..] == [ib, ic] && items[1..][1..] == [ic];
    assert StableSort.SortDescBy([ic], ItemId) == [ic];
    assert StableSort.SortDescBy([ib, ic], ItemId) == StableSort.InsertDescBy(ib, [ic], ItemId) == [ib, ic];
    assert StableSort.InsertDescBy(ia, [ic], ItemId) == [ia, ic];
    assert StableSort.InsertDescBy(ia, [ib, ic], ItemId) == [ib, ia, ic];
  }

  /**
   * The view model end to end: the list starts `Loading`, an empty store
   * makes it `Empty`, a completed form is saved as one record, and the
   * store's next emission (with the id it assigned) lists that record.
   */
  method SaveThenList() {
    var vm := new MainViewModel();
    assert vm.allUsersData == Loading;
    vm.OnRowsEmitted([]);
    assert vm.allUsersData == Empty;
    CompleteFormSaved();
    var form := InputFormState(name := "Ann", age := "30", dob := "1/1/1994", address := "1 Main St");
    vm.UpdateName("Ann");
    vm.UpdateAge("30");
    vm.UpdateDob("1/1/1994");
    vm.UpdateAddress("1 Main St");
    assert vm.formState == form;
    vm.SaveUserData();
    var ann := UserDataEntity(0, "Ann", 30, "1/1/1994", "1 Main St");
    assert vm.saved == [ann];
    var row := ann.(id := 1);
    vm.OnRowsEmitted([row]);
    assert MapToItems([row]) == [ToUserDataItem(row)];
    assert vm.allUsersData == Success([UserDataItem(1, "Ann", 30, "1/1/1994", "1 Main St")]);
  }
}
