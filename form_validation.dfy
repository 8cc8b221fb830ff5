/**
  The creation form's schema (src/lib/validations.ts): every field arrives as
  a string; each check that fails adds an issue to the field (a failed length
  check does not stop the refinements after it), and the form is accepted
  when there is no issue at all. `TransformForm` turns accepted strings into
  the values that are submitted.
*/
module FormValidation {
  import opened Wrappers
  import opened JsNumbers
  import opened ExpenseModel
  import opened Categories

  datatype Field = AmountField | CategoryField | DescriptionField | DateField | IdField

  datatype Issue = Issue(field: Field, message: string)

  /** The raw form: strings, with an optional description. */
  datatype ExpenseForm = ExpenseForm(amount: string, categoryId: string, description: Option<string>, date: string)

  /**
    What the date check reads besides the form: the running clock (`new
    Date()`), the same instant one calendar year earlier, and how `new
    Date(dateString)` reads a non-empty string (None for an Invalid Date).
    Instants are in milliseconds.
  */
  datatype Clock = Clock(now: int, oneYearAgo: int, parseDate: string -> Option<int>)
  {
    /** `new Date(s)`: the empty string is always an Invalid Date. */
    function Read(s: string): Option<int> {
      if s == "" then None else parseDate(s)
    }
  }

  const MaxAmount: real := 9999999.99
  const MaxFormDescription: nat := 200

  function AmountIssues(s: string): seq<Issue> {
    (if |s| < 1 then [Issue(AmountField, "金額を入力してください")] else [])
    + (if Greater(ParseFloat(s), 0.0) then [] else [Issue(AmountField, "有効な金額を入力してください")])
    + (if AtMost(ParseFloat(s), MaxAmount) then [] else [Issue(AmountField, "金額は999万円以下で入力してください")])
  }

  function CategoryIssues(s: string): seq<Issue> {
    (if |s| < 1 then [Issue(CategoryField, "カテゴリを選択してください")] else [])
    + (match ParseInt(s)
       case Some(n) => if 1 <= n <= 9 then [] else [Issue(CategoryField, "有効なカテゴリを選択してください")]
       case None => [Issue(CategoryField, "有効なカテゴリを選択してください")])
  }

  function DescriptionIssues(d: Option<string>): seq<Issue> {
    match d
    case Some(text) => if |text| <= MaxFormDescription then [] else [Issue(DescriptionField, "説明は200文字以下で入力してください")]
    case None => []
  }

  function DateIssues(s: string, clock: Clock): seq<Issue> {
    (if |s| < 1 then [Issue(DateField, "日付を選択してください")] else [])
    + (match clock.Read(s)
       case Some(t) => if t <= clock.now && t >= clock.oneYearAgo then [] else [Issue(DateField, "日付は今日から1年前の範囲で選択してください")]
       case None => [Issue(DateField, "日付は今日から1年前の範囲で選択してください")])
  }

  /** expenseFormSchema.safeParse: all issues of all fields. */
  function FormIssues(form: ExpenseForm, clock: Clock): seq<Issue> {
    AmountIssues(form.amount) + CategoryIssues(form.categoryId)
    + DescriptionIssues(form.description) + DateIssues(form.date, clock)
  }

  /** An amount string is accepted exactly when it parses to a finite number in (0, 9999999.99]. */
  lemma AmountAccepted(s: string)
    ensures AmountIssues(s) == [] <==> ParseFloat(s).Fin? && 0.0 < ParseFloat(s).value <= MaxAmount
  {
    if |s| == 0 {
      assert ParseFloat(s) == NaN;
    }
  }

  /**
    category_id is accepted exactly when `parseInt` finds an integer in 1..9;
    only the leading digits count, so "3 items" is read as 3.
  */
  lemma CategoryAccepted(s: string)
    ensures CategoryIssues(s) == [] <==> ParseInt(s).Some? && 1 <= ParseInt(s).value <= 9
  {
    if |s| == 0 {
      assert ParseInt(s) == None;
    }
  }

  lemma DescriptionAccepted(d: Option<string>)
    ensures DescriptionIssues(d) == [] <==> d.None? || |d.value| <= 200
  {
  }

  /** A date is accepted exactly when it names an instant between one year ago and now, both included. */
  lemma DateAccepted(s: string, clock: Clock)
    ensures DateIssues(s, clock) == []
        <==> s != "" && clock.parseDate(s).Some?
             && clock.oneYearAgo <= clock.parseDate(s).value <= clock.now
  {
  }

  /** An empty date fails both checks, whatever the clock reads. */
  lemma EmptyDateIssues(clock: Clock)
    ensures DateIssues("", clock)
         == [Issue(DateField, "日付を選択してください"), Issue(DateField, "日付は今日から1年前の範囲で選択してください")]
  {
  }

  lemma FormAccepted(form: ExpenseForm, clock: Clock)
    ensures FormIssues(form, clock) == []
        <==> AmountIssues(form.amount) == [] && CategoryIssues(form.categoryId) == []
             && DescriptionIssues(form.description) == [] && DateIssues(form.date, clock) == []
  {
  }

  /** "0" parses, but not to a positive number; "" has no number at all. */
  lemma AmountZeroRejected()
    ensures AmountIssues("0") != [] && AmountIssues("") != []
  {
    ParseFloatFromDigit("0");
    UnsignedDecimalDigitsOnly("0", 0, 1);
  }

  /** The largest accepted amount. */
  lemma AmountMaxAccepted(s: string)
    requires s == "9999999.99"
    ensures AmountIssues(s) == []
  {
    ParseFloatMaxAmount();
    AmountAccepted(s);
  }

  /** The smallest whole amount above the limit is rejected. */
  lemma AmountOverMaxRejected(s: string)
    requires s == "10000000"
    ensures AmountIssues(s) != []
  {
    ParseFloatTenMillion();
    AmountAccepted(s);
  }

  lemma CategoryExamples()
    ensures CategoryIssues("1") == []
    ensures CategoryIssues("10") != []
    ensures CategoryIssues("0") != []
    ensures CategoryIssues("3 items") == []
    ensures CategoryIssues("") != []
  {
    assert ParseInt("3 items") == Some(3);
  }

  /** The submitted values: `transformExpenseFormData`. */
  datatype SubmitData = SubmitData(amount: Num, categoryId: Option<int>, description: Option<string>, date: string)

  function TransformForm(form: ExpenseForm): SubmitData {
    SubmitData(
      ParseFloat(form.amount),
      ParseInt(form.categoryId),
      if form.description == Some("") then None else form.description,
      form.date)
  }

  /**
    Accepted data transforms to an amount in (0, 9999999.99] and a category
    in 1..9; an empty or absent description becomes null; the date string is
    passed on as it is.
  */
  lemma TransformAccepted(form: ExpenseForm, clock: Clock)
    requires FormIssues(form, clock) == []
    ensures var d := TransformForm(form);
      && d.amount.Fin? && 0.0 < d.amount.value <= MaxAmount
      && d.categoryId.Some? && 1 <= d.categoryId.value <= 9
      && (d.description.None? <==> form.description in {None, Some("")})
      && (d.description.Some? ==> d.description == form.description)
      && d.date == form.date
  {
    FormAccepted(form, clock);
    AmountAccepted(form.amount);
    CategoryAccepted(form.categoryId);
  }

  // ---------------------------------------------------------------------
  // categorySchema
  // ---------------------------------------------------------------------

  /** The id check of categorySchema: a number in [1, 9] (an integer is not demanded). */
  function CategorySchemaIssues(id: Num): seq<Issue> {
    if id.NaN? then [Issue(IdField, "Expected number, received nan")]
    else
    (if AtLeast(id, 1.0) then [] else [Issue(IdField, "Number must be greater than or equal to 1")])
    + (if AtMost(id, 9.0) then [] else [Issue(IdField, "Number must be less than or equal to 9")])
  }

  predicate AtLeast(x: Num, bound: real) {
    match x
    case Fin(v) => v >= bound
    case PosInf => true
    case _ => false
  }

  lemma CategorySchemaAccepted(id: Num)
    ensures CategorySchemaIssues(id) == [] <==> id.Fin? && 1.0 <= id.value <= 9.0
  {
  }

  /** NaN fails `z.number()` itself, once, and neither bound is checked; infinities fail one bound each. */
  lemma CategorySchemaSpecialValues()
    ensures CategorySchemaIssues(NaN) == [Issue(IdField, "Expected number, received nan")]
    ensures CategorySchemaIssues(PosInf) == [Issue(IdField, "Number must be less than or equal to 9")]
    ensures CategorySchemaIssues(NegInf) == [Issue(IdField, "Number must be greater than or equal to 1")]
  {
  }

  /** Every registry record passes categorySchema. */
  lemma RegistryPassesCategorySchema()
    ensures forall i :: 0 <= i < |Registry| ==> CategorySchemaIssues(Fin(Registry[i].id as real)) == []
  {
    RegistryShape();
  }
}
