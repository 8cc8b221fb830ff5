/**
  The edit dialog's schema (src/lib/validations/expense.ts): the fields arrive
  already typed (numbers, a Date, an optional string). A value of the wrong
  type ends its field's checks with one issue; otherwise every bound that
  fails adds an issue. The two schemas of the application disagree: this one
  allows 500 characters of description where the creation form allows 200,
  and it puts no range on the date.
*/
module EditValidation {
  import opened Wrappers
  import opened JsNumbers
  import opened FormValidation

  /**
    What arrives in the date field: a value that is not a Date at all (or is
    missing), a Date object that holds no time (`new Date("x")`), or a valid
    Date with its instant in milliseconds.
  */
  datatype DateValue = NotADate | InvalidDate | ValidDate(instant: int)

  /** The typed input. An absent description is None. */
  datatype EditInput = EditInput(amount: Num, categoryId: Num, date: DateValue, description: Option<string>)

  /** The parsed output, with the description defaulted. */
  datatype EditData = EditData(amount: real, categoryId: int, date: int, description: string)

  const MaxEditDescription: nat := 500

  /** `Number.isInteger`: finite with no fractional part. */
  predicate IsInteger(x: Num) {
    x.Fin? && x.value.Floor as real == x.value
  }

  function EditAmountIssues(x: Num): seq<Issue> {
    if x.NaN? then [Issue(AmountField, "Expected number, received nan")]
    else
      (if Greater(x, 0.0) then [] else [Issue(AmountField, "金額は0より大きい値を入力してください")])
      + (if AtMost(x, MaxAmount) then [] else [Issue(AmountField, "金額は9,999,999円以下で入力してください")])
  }

  function EditCategoryIssues(x: Num): seq<Issue> {
    if x.NaN? then [Issue(CategoryField, "Expected number, received nan")]
    else
      (if IsInteger(x) then [] else [Issue(CategoryField, "Expected integer, received float")])
      + (if AtLeast(x, 1.0) then [] else [Issue(CategoryField, "カテゴリを選択してください")])
      + (if AtMost(x, 9.0) then [] else [Issue(CategoryField, "無効なカテゴリです")])
  }

  /**
    zod 3's `z.date({ message })`: the custom message replaces the report of a
    wrong type or a missing value only; a Date holding no time gets zod's own
    "Invalid date".
  */
  function EditDateIssues(d: DateValue): seq<Issue> {
    match d
    case NotADate => [Issue(DateField, "有効な日付を入力してください")]
    case InvalidDate => [Issue(DateField, "Invalid date")]
    case ValidDate(_) => []
  }

  function EditDescriptionIssues(d: Option<string>): seq<Issue> {
    match d
    case Some(text) => if |text| <= MaxEditDescription then [] else [Issue(DescriptionField, "メモは500文字以内で入力してください")]
    case None => []
  }

  function EditIssues(input: EditInput): seq<Issue> {
    EditAmountIssues(input.amount) + EditCategoryIssues(input.categoryId)
    + EditDateIssues(input.date) + EditDescriptionIssues(input.description)
  }

  /**
    expenseSchema.safeParse: the issues of all fields, or the parsed data.
    Accepted data has an amount in (0, 9999999.99], an integer category in
    1..9, a valid date and a description of at most 500 characters, which is
    '' when none was given.
  */
  function ValidateEdit(input: EditInput): (r: Result<EditData, seq<Issue>>)
    ensures r.Failure? <==> EditIssues(input) != []
    ensures r.Failure? ==> r.error == EditIssues(input)
    ensures r.Success? ==>
      && input.amount == Fin(r.value.amount) && 0.0 < r.value.amount <= MaxAmount
      && input.categoryId == Fin(r.value.categoryId as real) && 1 <= r.value.categoryId <= 9
      && input.date == ValidDate(r.value.date)
      && |r.value.description| <= MaxEditDescription
      && r.value.description == input.description.GetOr("")
  {
    var issues := EditIssues(input);
    if issues != [] then Failure(issues)
    else
      assert EditAmountIssues(input.amount) == [] && EditCategoryIssues(input.categoryId) == []
        && EditDateIssues(input.date) == [] && EditDescriptionIssues(input.description) == [];
      Success(EditData(input.amount.value, input.categoryId.value.Floor, input.date.instant,
                       input.description.GetOr("")))
  }

  /** An amount passes exactly when it is a finite number in (0, 9999999.99]. */
  lemma EditAmountAccepted(x: Num)
    ensures EditAmountIssues(x) == [] <==> x.Fin? && 0.0 < x.value <= MaxAmount
  {
  }

  /** category_id passes exactly when it is an integer in 1..9. */
  lemma EditCategoryAccepted(x: Num)
    ensures EditCategoryIssues(x) == [] <==> exists k: int {:trigger k as real} :: 1 <= k <= 9 && x == Fin(k as real)
  {
    if EditCategoryIssues(x) == [] {
      var k := x.value.Floor;
      assert 1 <= k <= 9 && x == Fin(k as real);
    }
  }

  /** Any valid Date passes: there is no range bound. */
  lemma EditDateAccepted(d: DateValue)
    ensures EditDateIssues(d) == [] <==> d.ValidDate?
  {
  }

  /** A value that is not a Date gets the schema's message; an invalid Date gets zod's own. */
  lemma EditDateMessages()
    ensures EditDateIssues(NotADate) == [Issue(DateField, "有効な日付を入力してください")]
    ensures EditDateIssues(InvalidDate) == [Issue(DateField, "Invalid date")]
  {
  }

  lemma EditDescriptionAccepted(d: Option<string>)
    ensures EditDescriptionIssues(d) == [] <==> d.None? || |d.value| <= 500
  {
  }

  /** A description of 201 to 500 characters passes the edit schema but not the creation form. */
  lemma DescriptionLimitsDisagree(text: string)
    requires MaxFormDescription < |text| <= MaxEditDescription
    ensures EditDescriptionIssues(Some(text)) == []
    ensures DescriptionIssues(Some(text)) != []
  {
  }

  /**
    A date-only string read as an instant before one year ago (or after now)
    fails the creation form, while the same instant passes the edit schema.
  */
  lemma DateRangesDisagree(s: string, clock: Clock)
    requires clock.Read(s).Some?
    requires clock.Read(s).value < clock.oneYearAgo || clock.Read(s).value > clock.now
    ensures DateIssues(s, clock) != []
    ensures EditDateIssues(ValidDate(clock.Read(s).value)) == []
  {
    DateAccepted(s, clock);
  }

  /** Infinity is a number to zod but fails the upper bound; NaN fails on its type alone. */
  lemma EditAmountSpecialValues()
    ensures EditAmountIssues(PosInf) == [Issue(AmountField, "金額は9,999,999円以下で入力してください")]
    ensures |EditAmountIssues(NaN)| == 1
  {
  }
}
