/** The guards the two form handlers apply before any write: adding a
    category (app.js:115-120) and saving a product (app.js:132-143). */
module Validation {
  import opened Wrappers
  import opened Text

  datatype CategoryError = EmptyCategoryName | CategoryExists

  /** `categories.some(c => c.name.toLowerCase() === name.toLowerCase())`. */
  predicate SameNameExists(existing: seq<string>, name: string)
    decreases |existing|
  {
    existing != [] && (Lower(existing[0]) == Lower(name) || SameNameExists(existing[1..], name))
  }

  lemma {:induction false} SameNameExistsIff(existing: seq<string>, name: string)
    ensures SameNameExists(existing, name) <==>
      exists i :: 0 <= i < |existing| && Lower(existing[i]) == Lower(name)
    decreases |existing|
  {
    if existing != [] {
      SameNameExistsIff(existing[1..], name);
      assert forall i :: 1 <= i < |existing| ==> existing[i] == existing[1..][i - 1];
      if exists i :: 1 <= i < |existing| && Lower(existing[i]) == Lower(name) {
        var i :| 1 <= i < |existing| && Lower(existing[i]) == Lower(name);
        assert Lower(existing[1..][i - 1]) == Lower(name);
      }
    }
  }

  /** The new category's name is the trimmed input. It is refused when that
      is empty, and otherwise when an existing name equals it ignoring case;
      an accepted name clashes with none of the existing ones. */
  function ValidateNewCategory(input: string, existing: seq<string>): (r: Result<string, CategoryError>)
    ensures r == Err(EmptyCategoryName) <==> Trim(input) == ""
    ensures r == Err(CategoryExists) <==>
      Trim(input) != "" && exists i :: 0 <= i < |existing| && Lower(existing[i]) == Lower(Trim(input))
    ensures r.Ok? ==> r.value == Trim(input) && r.value != ""
    ensures r.Ok? ==> forall i :: 0 <= i < |existing| ==> Lower(existing[i]) != Lower(r.value)
  {
    var name := Trim(input);
    SameNameExistsIff(existing, name);
    if name == "" then Err(EmptyCategoryName)
    else if SameNameExists(existing, name) then Err(CategoryExists)
    else Ok(name)
  }

  datatype SaveError = MissingUser | IncompleteForm

  /** What a valid product form yields for the write. */
  datatype ProductInput = ProductInput(name: string, category: string, stock: int)

  /** The product form's guard. `quantity` is `parseInt(qty, 10)`, `None`
      standing for NaN. A missing user name is reported first; then the form
      is refused when the trimmed name is empty, no category is chosen or the
      quantity is not a number. Zero and negative quantities pass. */
  function ValidateProductForm(user: string, nameInput: string, category: string, quantity: Option<int>)
    : (r: Result<ProductInput, SaveError>)
    ensures r == Err(MissingUser) <==> user == ""
    ensures r == Err(IncompleteForm) <==>
      user != "" && (Trim(nameInput) == "" || category == "" || quantity == None)
    ensures r.Ok? <==> user != "" && Trim(nameInput) != "" && category != "" && quantity.Some?
    ensures r.Ok? ==> r.value == ProductInput(Trim(nameInput), category, quantity.value)
  {
    if user == "" then Err(MissingUser)
    else
      var name := Trim(nameInput);
      if name == "" || category == "" || quantity.None? then Err(IncompleteForm)
      else Ok(ProductInput(name, category, quantity.value))
  }

  /** A name that is only whitespace is refused even with a user, category and quantity. */
  lemma BlankNameRefused(user: string, nameInput: string, category: string, quantity: Option<int>)
    requires user != ""
    requires forall i :: 0 <= i < |nameInput| ==> IsSpace(nameInput[i])
    ensures ValidateProductForm(user, nameInput, category, quantity) == Err(IncompleteForm)
  {
    TrimEmptyIffBlank(nameInput);
  }

  /** A category spelled like an existing one in another case is a duplicate. */
  lemma CaseVariantRefused(input: string, existing: seq<string>, i: nat)
    requires Trim(input) != "" && i < |existing| && Lower(existing[i]) == Lower(Trim(input))
    ensures ValidateNewCategory(input, existing) == Err(CategoryExists)
  {
  }
}
