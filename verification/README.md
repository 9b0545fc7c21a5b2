# UserData view model, in Dafny

A model of the logic core of the UserData Android app. The app records
entries (name, age, date of birth, address) through a form and lists them.
The model covers `MainViewModel` and the `UserDataEntity`/`UserDataItem`
records.

- **Field validators.** `validateName`, `validateDob` and `validateAddress`
  reject blank text. `validateAge` rejects text that `toIntOrNull` cannot
  read ("Age must be a number") and then negative values ("Age cannot be
  negative").
- **Form state machine.** `InputFormState` holds four texts and four optional
  errors, with `updateName/Age/Dob/Address` and `saveUserData`. The class
  `ViewModel.MainViewModel` holds the form state, the records handed to the
  repository and the latest list state.
- **List projection.** `allUsersData` turns the stored rows into `Empty`, or
  into `Success` of the rows copied as items and sorted by id, largest first,
  with a stable sort. Before the first emission it is `Loading`.
- **Kotlin library behaviour the validators depend on.** The model writes
  these out explicitly:
  - `Char.isWhitespace` and `isBlank`, as on the JVM;
  - `toIntOrNull` with its sign rules, its 32-bit range and JVM digit
    recognition (`Character.digit`, so every Unicode decimal digit of the
    Basic Multilingual Plane, e.g. Arabic-Indic digits, counts);
  - `toInt`, that is Java's `Integer.parseInt` with its negative
    accumulation and overflow test, proved to agree with `toIntOrNull`;
  - `trim`, as an independent reading of "blank".

Modules: `Optional` (nullable values), `KotlinText`, `Entities`,
`StableSort` (`sortedByDescending`), `Validation`, `FormState`,
`Projection`, `ViewModel`, and `Scenarios` (worked inputs, including an
end-to-end walk-through of the view model, `Scenarios.SaveThenList`).

Three points of the code's behaviour that are easy to misread:

- The validators call `isBlank`. `KotlinText.BlankIffTrimEmpty` proves that
  this is the same as "the trimmed text is empty".
- `sortedByDescending` orders ids non-increasing and keeps rows with equal
  ids in emitted order. The model does not assume that ids are distinct.
- A successful save leaves the form as it was. The invariant the class
  keeps, `ErrorsCurrent` (every shown error is either none or the
  validator's verdict on the current text), makes every error null there;
  `SaveUserData` proves this.

## Model

| member | source | states |
|---|---|---|
| `KotlinText.IsWhitespace` | app/src/main/java/com/example/userdata/MainViewModel.kt:121 | `Char.isWhitespace`: the JVM's `Character.isWhitespace` or `Character.isSpaceChar`; `KotlinText.WhitespaceIsNoDigit` shows no whitespace is a digit |
| `KotlinText.IsBlank` | app/src/main/java/com/example/userdata/MainViewModel.kt:121 | `isBlank`: every character is whitespace; `KotlinText.BlankIffTrimEmpty` relates it to `trim` and the validators' contracts rest on it |
| `KotlinText.BlankIffTrimEmpty` | app/src/main/java/com/example/userdata/MainViewModel.kt:120-121 | `isBlank(t)` holds exactly when `t.trim()` is empty |
| `KotlinText.Trim` | app/src/main/java/com/example/userdata/MainViewModel.kt:120-121 | the trimmed text is the input with only a whitespace prefix and a whitespace suffix removed, and a non-empty one starts and ends with non-whitespace |
| `KotlinText.DigitOf` | app/src/main/java/com/example/userdata/MainViewModel.kt:124 | a digit's value is in 0..9 (-1 for a non-digit), and the ASCII digits '0'..'9' have their usual values |
| `KotlinText.WhitespaceIsNoDigit` | app/src/main/java/com/example/userdata/MainViewModel.kt:124 | no whitespace character is a decimal digit |
| `KotlinText.ToIntOrNull` | app/src/main/java/com/example/userdata/MainViewModel.kt:124 | accepted text is an optional '+' or '-' followed by decimal digits only; a digit string whose value fits an `Int` reads as that value; see also `ToIntOrNullOfToString`, `ParsedTextHasNoWhitespace` and `ParseIntAgrees` |
| `KotlinText.ToIntOrNullReads` | app/src/main/java/com/example/userdata/MainViewModel.kt:124 | `toIntOrNull` gives `n` exactly when the text is an optional '-' or '+' followed by one or more decimal digits whose signed value is `n` and `n` is an `Int` |
| `KotlinText.ParsedTextHasNoWhitespace` | app/src/main/java/com/example/userdata/MainViewModel.kt:124-126 | text `toIntOrNull` accepts is non-empty, not blank and has no whitespace anywhere |
| `KotlinText.ToIntOrNullOfToString` | app/src/main/java/com/example/userdata/MainViewModel.kt:124 | `toIntOrNull(n.toString())` is `n` for every 32-bit `n`, and null for every integer outside the `Int` range |
| `KotlinText.NegativeAccumulation` | app/src/main/java/com/example/userdata/MainViewModel.kt:83 | the value `Integer.parseInt`'s digit loop holds is never below its limit and never positive |
| `KotlinText.NegativeAccumulationReadsValue` | app/src/main/java/com/example/userdata/MainViewModel.kt:83 | the digit loop throws exactly when a character is no digit or the value passes the limit, and otherwise holds the negated value |
| `KotlinText.OverflowStep` | app/src/main/java/com/example/userdata/MainViewModel.kt:83 | the digit loop's two overflow tests together fire exactly when the next value passes the bound |
| `KotlinText.ParseDigits` | app/src/main/java/com/example/userdata/MainViewModel.kt:83 | the digit loop of `Integer.parseInt` run against `Int.MIN_VALUE` for a negative number and `-Int.MAX_VALUE` otherwise, a positive result negated back; `ParseDigitsReadsSignedValue` gives its value |
| `KotlinText.ParseInt` | app/src/main/java/com/example/userdata/MainViewModel.kt:83 | `Integer.parseInt`: `None` where it throws; a leading '-' or '+' only when more follows, any other character below '0' refused; the rest goes to the digit loop against the sign's limit; `ParseIntAgrees` equates it with `toIntOrNull` |
| `KotlinText.ParseDigitsReadsSignedValue` | app/src/main/java/com/example/userdata/MainViewModel.kt:83 | the digit loop, run against the limit for the sign, reads the signed value of the digits when it is an `Int`, and throws otherwise |
| `KotlinText.ParseIntAgrees` | app/src/main/java/com/example/userdata/MainViewModel.kt:83 | `toInt()` throws exactly on the texts where `toIntOrNull()` is null, and reads the same value from every other text |
| `KotlinText.ToInt` | app/src/main/java/com/example/userdata/MainViewModel.kt:83 | `toInt()`, on text `Integer.parseInt` accepts, returns the value `toIntOrNull()` reads |
| `Validation.ValidateName` | app/src/main/java/com/example/userdata/MainViewModel.kt:120-121 | no error exactly when the name is not blank, equivalently when its trimmed text is non-empty; otherwise exactly "Name cannot be empty" |
| `Validation.ValidateAge` | app/src/main/java/com/example/userdata/MainViewModel.kt:123-130 | no error iff the text parses to some n >= 0; "Age must be a number" iff the parse fails; "Age cannot be negative" iff it gives n < 0 |
| `Validation.ValidateDob` | app/src/main/java/com/example/userdata/MainViewModel.kt:132-133 | no error exactly when the text is not blank, equivalently when its trimmed text is non-empty; otherwise exactly "DOB cannot be empty" |
| `Validation.ValidateAddress` | app/src/main/java/com/example/userdata/MainViewModel.kt:135-136 | no error exactly when the text is not blank, equivalently when its trimmed text is non-empty; otherwise exactly "Address cannot be empty" |
| `Validation.AcceptedAgeParses` | app/src/main/java/com/example/userdata/MainViewModel.kt:79-83 | an accepted age is non-blank and has no whitespace; `toInt()` on it does not throw and is non-negative |
| `Entities.ToUserDataItem` | app/src/main/java/com/example/userdata/data/local/UserDataEntity.kt:28-35 | the item has the entity's id, name, age, dob and address |
| `Entities.NewEntity` | app/src/main/java/com/example/userdata/data/local/UserDataEntity.kt:8-14 | an entity built without an id has id 0 and the given four fields |
| `Entities.ToUserDataItemInjective` | app/src/main/java/com/example/userdata/data/local/UserDataEntity.kt:8-23 | distinct entities map to distinct items |
| `Entities.MapToItems` | app/src/main/java/com/example/userdata/MainViewModel.kt:50 | the mapped list has the same length, and position i holds the copy of entity i |
| `Entities.MapToItemsInjective` | app/src/main/java/com/example/userdata/MainViewModel.kt:50 | distinct entity lists map to distinct item lists |
| `StableSort.InsertDescBy` | app/src/main/java/com/example/userdata/MainViewModel.kt:51 | the insertion step of the stable sort: one element longer, headed by the new element or by the old head; `InsertKeepsSorted`, `InsertPermutes` and `InsertKeyGroups` give its properties |
| `StableSort.InsertKeepsSorted` | app/src/main/java/com/example/userdata/MainViewModel.kt:51 | inserting into a list in descending order keeps it in descending order |
| `StableSort.InsertPermutes` | app/src/main/java/com/example/userdata/MainViewModel.kt:51 | insertion adds exactly the new element, as a multiset |
| `StableSort.InsertKeyGroups` | app/src/main/java/com/example/userdata/MainViewModel.kt:51 | insertion puts the new element first among those with its key and leaves every other key's elements as they were |
| `StableSort.SortDescBy` | app/src/main/java/com/example/userdata/MainViewModel.kt:51 | the result is ordered by key non-increasing, is a permutation of the input, and keeps each key's elements in input order |
| `StableSort.SameKeyGroupsEqual` | app/src/main/java/com/example/userdata/MainViewModel.kt:51 | two descending lists with the same elements per key, in the same order, are equal |
| `StableSort.StableDescendingSortUnique` | app/src/main/java/com/example/userdata/MainViewModel.kt:51 | every list that is a stable descending sort of the input equals `SortDescBy`'s result, so the contract determines `sortedByDescending` |
| `Projection.ProjectUsers` | app/src/main/java/com/example/userdata/MainViewModel.kt:44-54 | never `Loading`; `Empty` iff there are no rows; otherwise `Success` of the copied rows, same count, ids non-increasing, a permutation, equal ids in emitted order |
| `Projection.CopyKeepsOrder` | app/src/main/java/com/example/userdata/data/local/UserDataEntity.kt:28-35 | copying a list ordered by id gives a list ordered by id |
| `Projection.InsertCommutesWithCopy` | app/src/main/java/com/example/userdata/MainViewModel.kt:49-51 | inserting a copied item into copied items is copying after inserting the entity |
| `Projection.SortCommutesWithCopy` | app/src/main/java/com/example/userdata/MainViewModel.kt:49-51 | sorting the copied items by id equals copying the entities sorted by id |
| `Projection.ProjectionDetermined` | app/src/main/java/com/example/userdata/MainViewModel.kt:44-54 | any list meeting the projection's ordering contract is exactly the projected list |
| `FormState.InitialFormIsEmpty` | app/src/main/java/com/example/userdata/MainViewModel.kt:144-153 | the initial form has every text "" and every error null |
| `FormState.WithText` | app/src/main/java/com/example/userdata/MainViewModel.kt:104-118 | an edit sets the field's text and that field's validator verdict, and leaves the other three texts and errors unchanged |
| `FormState.FieldwiseEqual` | app/src/main/java/com/example/userdata/MainViewModel.kt:144-153 | two forms agreeing on every text and error are equal |
| `FormState.WithTextIdempotent` | app/src/main/java/com/example/userdata/MainViewModel.kt:104-118 | entering the same text twice gives the same form as entering it once |
| `FormState.WithTextCommutes` | app/src/main/java/com/example/userdata/MainViewModel.kt:104-118 | edits to two different fields commute |
| `FormState.WithAllErrors` | app/src/main/java/com/example/userdata/MainViewModel.kt:88-97 | a rejected save keeps every text and sets every error, valid fields included, to its validator's verdict |
| `FormState.RejectedFormShowsError` | app/src/main/java/com/example/userdata/MainViewModel.kt:88-97 | after a rejected save at least one error is shown |
| `FormState.InitialErrorsCurrent` | app/src/main/java/com/example/userdata/MainViewModel.kt:144-153 | the initial form shows no stale error |
| `FormState.WithTextKeepsErrorsCurrent` | app/src/main/java/com/example/userdata/MainViewModel.kt:104-118 | edits never introduce a stale error |
| `FormState.WithAllErrorsKeepsErrorsCurrent` | app/src/main/java/com/example/userdata/MainViewModel.kt:88-97 | after a rejected save every error matches its field's current text |
| `FormState.ValidFormShowsNoError` | app/src/main/java/com/example/userdata/MainViewModel.kt:79-87 | when all four validators pass and no error is stale, every error field is null |
| `FormState.ToEntity` | app/src/main/java/com/example/userdata/MainViewModel.kt:81-86 | the saved record has id 0, the form's name, dob and address, and the age `toIntOrNull` reads; it meets every field constraint |
| `ViewModel.MainViewModel.constructor` | app/src/main/java/com/example/userdata/MainViewModel.kt:55-67 | a new view model has the empty form, nothing saved, and the list `Loading` |
| `ViewModel.MainViewModel.OnRowsEmitted` | app/src/main/java/com/example/userdata/MainViewModel.kt:43-59 | each emission sets the list state to the rows' projection, never back to `Loading`; the form and saved records are untouched |
| `ViewModel.MainViewModel.UpdateName` | app/src/main/java/com/example/userdata/MainViewModel.kt:104-106 | the form becomes `WithText(old, Name, name)`; nothing else changes; the invariant is kept |
| `ViewModel.MainViewModel.UpdateAge` | app/src/main/java/com/example/userdata/MainViewModel.kt:108-110 | the form becomes `WithText(old, Age, age)`; nothing else changes; the invariant is kept |
| `ViewModel.MainViewModel.UpdateDob` | app/src/main/java/com/example/userdata/MainViewModel.kt:112-114 | the form becomes `WithText(old, Dob, dob)`; nothing else changes; the invariant is kept |
| `ViewModel.MainViewModel.UpdateAddress` | app/src/main/java/com/example/userdata/MainViewModel.kt:116-118 | the form becomes `WithText(old, Address, address)`; nothing else changes; the invariant is kept |
| `ViewModel.MainViewModel.SaveUserData` | app/src/main/java/com/example/userdata/MainViewModel.kt:71-100 | valid form: exactly one record (`ToEntity`) appended, form unchanged, no error shown; invalid form: nothing appended, texts kept, all four errors set to the validators' verdicts; every saved record meets the field constraints |
| `Scenarios.ToIntOrNullReadsDigits` | app/src/main/java/com/example/userdata/MainViewModel.kt:124 | "30", "007" and Arabic-Indic "٣٠" parse to 30, 7 and 30 |
| `Scenarios.ToIntOrNullAccepts` | app/src/main/java/com/example/userdata/MainViewModel.kt:124 | "+7", "-5" and "-0" parse to 7, -5 and 0 |
| `Scenarios.ToIntOrNullRejects` | app/src/main/java/com/example/userdata/MainViewModel.kt:124 | "", "-", "+", " 30", "30 ", "3.0" and "abc" do not parse |
| `Scenarios.EmptyFormRejected` | app/src/main/java/com/example/userdata/MainViewModel.kt:88-97 | an empty form with age "abc" shows all four messages |
| `Scenarios.NegativeAgeRejected` | app/src/main/java/com/example/userdata/MainViewModel.kt:123-130 | name "Bo", age "-5", dob "x", address "y" shows only "Age cannot be negative" |
| `Scenarios.CompleteFormSaved` | app/src/main/java/com/example/userdata/MainViewModel.kt:79-87 | a complete form becomes the record (0, "Ann", 30, "1/1/1994", "1 Main St") |
| `Scenarios.ProjectionOrdersNewestFirst` | app/src/main/java/com/example/userdata/MainViewModel.kt:44-54 | no rows give `Empty`; rows with ids 1, 3, 1 are listed as 3 and then both 1s in emitted order |

## Left out

- Coroutines and sharing are not modelled: `viewModelScope.launch`, `withContext(ioDispatcher)`, and `stateIn` with `WhileSubscribed(5_000)` and its replay after re-subscription. `SaveUserData` is one atomic step, so two saves racing is not modelled.
- The model's `formState` is the value of `_formState`. The public `formState` re-shares it with `WhileSubscribed(5_000)`, so while nothing collects it that flow keeps its last value and can lag behind `_formState` until the next subscription.
- The Room store is not modelled: its table, id auto-generation and reactive re-emission. `saved` holds the entities this view model passed to `addUserData`, each with id 0. The rows Room emits, ids included, are the parameter of `OnRowsEmitted`.
- The repository and DAO are pass-throughs. `UserDataRepository.kt` and `UserDataDao.kt` are not part of this model.
- Storage I/O faults are not modelled; the source does not handle them.
- Compose screens, navigation, `convertMillisToDate` (which depends on the device calendar and time zone) and Hilt wiring are UI or dependency-injection code and are not part of this model.
- Kotlin strings are UTF-16 code units; here a string is a sequence of Unicode scalar values. Characters outside the Basic Multilingual Plane are neither whitespace nor digits in either view, so the validators agree; only lengths differ. A Kotlin string may also hold an unpaired surrogate, which a Dafny `char` cannot; it is neither whitespace nor a digit either, so no validator outcome changes.
- `KotlinText.DigitOf`: the digit blocks are those of Unicode 15. The set `Character.digit` recognises depends on the Unicode version of the device's runtime (ICU on Android).
- `KotlinText.IsWhitespace`: the whitespace set is that of Unicode 15, and so is `KotlinText.IsBlank` built on it. Membership changes between Unicode versions (U+180E MONGOLIAN VOWEL SEPARATOR was a space separator before Unicode 6.3), and Android's `Character` follows the ICU version of the device.
- `KotlinText.ToInt` requires that `Integer.parseInt` accepts the text. `ParseInt` returns `None` where `toInt()` throws `NumberFormatException`; the source calls `toInt()` only after `validateAge` has accepted the text, and `Validation.AcceptedAgeParses` shows it then does not throw.
