/**
  The collection endpoint of the expenses API (src/app/api/expenses/route.ts):
  POST checks the caller, validates the body, creates the caller's user row
  on first use and inserts the expense; GET lists one page of the caller's
  expenses, newest first, with the pagination figures.

  The identity provider, the database service and the body schema are
  outside the model: their answers are parameters.
*/
module ExpensesRoute {
  import opened Wrappers
  import opened Seqs
  import opened JsNumbers
  import opened ExpenseModel
  import opened Categories
  import opened FormValidation

  /** The validated fields of a new expense. */
  datatype NewExpense = NewExpense(categoryId: int, amount: real, description: Option<string>, date: int)

  /** The request body: not JSON at all, rejected by the schema with its issues, or accepted. */
  datatype Body = NotJson | Invalid(issues: seq<Issue>) | Valid(data: NewExpense)

  /** The identity provider's answer for the caller: an error, or the primary email address if it has one. */
  datatype Lookup = LookupFailed | Found(primaryEmail: Option<string>)

  /**
    The `pagination` object GET returns next to the rows; a `None` page or
    limit is the NaN `parseInt` gives, and the `totalPages` field is computed
    from the limit and the total.
  */
  datatype Pagination = Pagination(page: Option<int>, limit: Option<int>, total: nat) {
    /** The `totalPages` field: `Math.ceil(total / limit)`. */
    function PageCount(): Num {
      if limit.Some? then TotalPages(total, limit.value) else NaN
    }
  }

  datatype Response =
    | Unauthorized
    | BadRequest(issues: seq<Issue>)
    | ServerError(message: string)
    | Created(row: Expense)
    | Listed(rows: seq<Expense>, pagination: Pagination)

  function Status(r: Response): int {
    match r
    case Unauthorized => 401
    case BadRequest(_) => 400
    case ServerError(_) => 500
    case Created(_) => 201
    case Listed(_, _) => 200
  }

  const UnknownEmail: string := "unknown@example.com"

  /** The email of a new user row: the primary address, or the placeholder when there is none or the lookup failed. */
  function EmailFor(lookup: Lookup): string {
    match lookup
    case LookupFailed => UnknownEmail
    case Found(email) => if email.Some? && email.value != "" then email.value else UnknownEmail
  }

  /** The row the insert returns: the database supplies the id and the timestamps, and no category is joined. */
  function NewRow(userId: string, data: NewExpense, rowId: string, now: int): Expense {
    Expense(rowId, userId, data.categoryId, data.amount, data.description, data.date, now, now, None)
  }

  // ---------------------------------------------------------------------
  // POST
  // ---------------------------------------------------------------------

  /**
    The answer of POST, given whether the caller's user row exists and
    whether the two inserts fail.
  */
  function PostResponse(userId: Option<string>, body: Body, userExists: bool, userInsertFails: bool,
                        expenseInsertFails: bool, rowId: string, now: int): Response
  {
    if userId.None? then Unauthorized
    else
      match body
      case NotJson => ServerError("Internal server error")
      case Invalid(issues) => BadRequest(issues)
      case Valid(data) =>
        if !userExists && userInsertFails then ServerError("Failed to create user")
        else if expenseInsertFails then ServerError("Failed to create expense")
        else Created(NewRow(userId.value, data, rowId, now))
  }

  /** The two tables POST writes: user id to email, and the expense rows. */
  class Tables {
    var users: map<string, string>
    var expenses: seq<Expense>

    constructor(users: map<string, string>, expenses: seq<Expense>)
      ensures this.users == users && this.expenses == expenses
    {
      this.users := users;
      this.expenses := expenses;
    }

    /**
      POST: 401 without a caller and 400 for an invalid body, both before
      any table is touched; otherwise the user row is inserted if there is
      none, then the expense, and 201 returns the inserted row.
    */
    method Post(userId: Option<string>, body: Body, lookup: Lookup, userInsertFails: bool,
                expenseInsertFails: bool, rowId: string, now: int) returns (response: Response)
      modifies this
      ensures response == PostResponse(userId, body, userId.Some? && userId.value in old(users),
                                       userInsertFails, expenseInsertFails, rowId, now)
      ensures users == if userId.Some? && body.Valid? && userId.value !in old(users) && !userInsertFails
                       then old(users)[userId.value := EmailFor(lookup)] else old(users)
      ensures expenses == if response.Created? then old(expenses) + [response.row] else old(expenses)
    {
      if userId.None? {
        return Unauthorized;
      }
      var uid := userId.value;
      match body {
        case NotJson =>
          return ServerError("Internal server error");
        case Invalid(issues) =>
          return BadRequest(issues);
        case Valid(data) =>
          if uid !in users {
            var email := EmailFor(lookup);
            if userInsertFails {
              return ServerError("Failed to create user");
            }
            users := users[uid := email];
          }
          if expenseInsertFails {
            return ServerError("Failed to create expense");
          }
          var row := NewRow(uid, data, rowId, now);
          expenses := expenses + [row];
          return Created(row);
      }
    }
  }

  /** The status codes of POST and the order in which its checks decide them. */
  lemma {:induction false} PostStatuses(userId: Option<string>, body: Body, userExists: bool, userInsertFails: bool,
                                        expenseInsertFails: bool, rowId: string, now: int)
    ensures var r := PostResponse(userId, body, userExists, userInsertFails, expenseInsertFails, rowId, now);
      && (Status(r) == 401 <==> userId.None?)
      && (Status(r) == 400 <==> userId.Some? && body.Invalid?)
      && (Status(r) == 400 ==> r.issues == body.issues)
      && (Status(r) == 201 <==> userId.Some? && body.Valid? && (userExists || !userInsertFails) && !expenseInsertFails)
  {
  }

  /** A created expense is owned by the caller and carries the validated fields. */
  lemma {:induction false} CreatedRow(userId: Option<string>, body: Body, userExists: bool, userInsertFails: bool,
                                      expenseInsertFails: bool, rowId: string, now: int)
    requires PostResponse(userId, body, userExists, userInsertFails, expenseInsertFails, rowId, now).Created?
    ensures var row := PostResponse(userId, body, userExists, userInsertFails, expenseInsertFails, rowId, now).row;
      && userId.Some? && body.Valid?
      && row.userId == userId.value
      && row.categoryId == body.data.categoryId && row.amount == body.data.amount
      && row.description == body.data.description && row.date == body.data.date
  {
  }

  /** A new user gets the primary address, and the placeholder when the lookup fails or finds none. */
  lemma {:induction false} EmailFallback(lookup: Lookup)
    ensures EmailFor(lookup) != ""
    ensures EmailFor(lookup) == UnknownEmail <==>
      lookup.LookupFailed? || lookup.primaryEmail.None? || lookup.primaryEmail.value in {"", UnknownEmail}
  {
  }

  // ---------------------------------------------------------------------
  // GET
  // ---------------------------------------------------------------------

  /** `searchParams.get(name) || fallback`: an absent or empty parameter takes the default. */
  function OrDefault(param: Option<string>, fallback: string): string {
    if param.Some? && param.value != "" then param.value else fallback
  }

  /** `parseInt(searchParams.get('page') || '1')`. */
  function RequestedPage(param: Option<string>): Option<int> {
    ParseInt(OrDefault(param, "1"))
  }

  /** `Math.min(parseInt(searchParams.get('limit') || '20'), 100)`; NaN stays NaN. */
  function Limit(param: Option<string>): Option<int> {
    match ParseInt(OrDefault(param, "20"))
    case Some(l) => Some(if l < 100 then l else 100)
    case None => None
  }

  /** `(page - 1) * limit`: page 1 starts at row 0 and each later page `limit` rows after the one before. */
  function Offset(page: int, limit: int): (o: int)
    requires page >= 1 && limit >= 1
    ensures o >= 0
    decreases page
  {
    if page == 1 then 0 else Offset(page - 1, limit) + limit
  }

  function OwnedBy(userId: string): Expense -> bool {
    (e: Expense) => e.userId == userId
  }

  function DateKey(e: Expense): real {
    e.date as real
  }

  function CreatedKey(e: Expense): real {
    e.createdAt as real
  }

  /** `order('date', desc).order('created_at', desc)`: by creation time, then stably by date. */
  function Ordered(rows: seq<Expense>): seq<Expense> {
    SortDesc(SortDesc(rows, CreatedKey), DateKey)
  }

  /** `range(offset, offset + limit - 1)`: the rows from `offset` on, at most `limit` of them. */
  function Window(rows: seq<Expense>, offset: nat, limit: nat): (r: seq<Expense>)
    ensures |r| <= limit
    ensures forall i :: 0 <= i < |r| ==> offset + i < |rows| && r[i] == rows[offset + i]
  {
    var from := if offset < |rows| then offset else |rows|;
    var to := if offset + limit < |rows| then offset + limit else |rows|;
    rows[from..to]
  }

  /** The `categories (...)` join: the category record of the row's id. */
  function Joined(rows: seq<Expense>): (r: seq<Expense>)
    ensures |r| == |rows|
    ensures forall i :: 0 <= i < |rows| ==> r[i] == rows[i].(categories := GetCategoryById(rows[i].categoryId))
  {
    seq(|rows|, i requires 0 <= i < |rows| => rows[i].(categories := GetCategoryById(rows[i].categoryId)))
  }

  /** `Math.ceil(total / limit)` on numbers: a zero limit gives Infinity, or NaN for no rows. */
  function TotalPages(total: nat, limit: int): Num {
    match Divide(total as real, limit as real)
    case Fin(v) => Fin(Ceil(v) as real)
    case other => other
  }

  /**
    The answer of GET over the stored rows, given whether the page query and
    the count query fail. A failed count counts as 0. The page query is
    evaluated for a page of at least 1 and a limit of at least 1; the
    database's answer to a NaN, zero or negative range is not modelled, and
    such a query is taken to fail.
  */
  function Get(userId: Option<string>, pageParam: Option<string>, limitParam: Option<string>,
               rows: seq<Expense>, queryFails: bool, countFails: bool): Response
  {
    if userId.None? then Unauthorized
    else
      var page := RequestedPage(pageParam);
      var limit := Limit(limitParam);
      if queryFails || page.None? || limit.None? || page.value < 1 || limit.value < 1 then
        ServerError("Failed to fetch expenses")
      else
        var total := if countFails then 0 else |Filter(rows, OwnedBy(userId.value))|;
        Listed(PageRows(userId.value, page.value, limit.value, rows),
               Pagination(page, limit, total))
  }

  /** The rows of one page: the caller's rows in list order, from the offset on, joined with their category. */
  function PageRows(userId: string, page: int, limit: int, rows: seq<Expense>): seq<Expense>
    requires page >= 1 && limit >= 1
  {
    Joined(Window(Ordered(Filter(rows, OwnedBy(userId))), Offset(page, limit), limit))
  }

  // ---------------------------------------------------------------------
  // GET properties
  // ---------------------------------------------------------------------

  /** Without a caller the answer is 401, whatever the tables hold. */
  lemma {:induction false} GetUnauthorized(pageParam: Option<string>, limitParam: Option<string>,
                                           rows: seq<Expense>, queryFails: bool, countFails: bool)
    ensures Get(None, pageParam, limitParam, rows, queryFails, countFails) == Unauthorized
    ensures Status(Unauthorized) == 401
  {
  }

  /** Page 1 when the parameter is absent or empty. */
  lemma {:induction false} DefaultPage(pageParam: Option<string>)
    ensures (pageParam.None? || pageParam == Some("")) ==> RequestedPage(pageParam) == Some(1)
  {
    if pageParam.None? || pageParam == Some("") {
      assert OrDefault(pageParam, "1") == "1";
      assert IsDecimalDigit("1"[0]);
      ParseIntDecimal("1");
      assert DecimalValue("1", 0, 1) == 1;
    }
  }

  /** Limit 20 when the parameter is absent or empty. */
  lemma {:induction false} DefaultLimit(limitParam: Option<string>)
    ensures (limitParam.None? || limitParam == Some("")) ==> Limit(limitParam) == Some(20)
  {
    if limitParam.None? || limitParam == Some("") {
      assert OrDefault(limitParam, "20") == "20";
      assert IsDecimalDigit("20"[0]) && IsDecimalDigit("20"[1]);
      ParseIntDecimal("20");
      assert DecimalValue("20", 0, 1) == 2;
      assert DecimalValue("20", 0, 2) == 20;
    }
  }

  /** The limit is the requested one, capped at 100. */
  lemma {:induction false} LimitCapped(limitParam: Option<string>)
    ensures Limit(limitParam).Some? <==> ParseInt(OrDefault(limitParam, "20")).Some?
    ensures Limit(limitParam).Some? ==>
      && Limit(limitParam).value <= 100
      && Limit(limitParam).value == (if ParseInt(OrDefault(limitParam, "20")).value < 100
                                     then ParseInt(OrDefault(limitParam, "20")).value else 100)
  {
  }

  /** Whether GET lists a page: a caller, a page query that succeeds, and a page and limit of at least 1. */
  predicate Lists(pageParam: Option<string>, limitParam: Option<string>, queryFails: bool) {
    && !queryFails
    && RequestedPage(pageParam).Some? && RequestedPage(pageParam).value >= 1
    && Limit(limitParam).Some? && Limit(limitParam).value >= 1
  }

  /** With a caller, GET answers 200 exactly when it lists a page, and 500 otherwise. */
  lemma {:induction false} GetOutcome(userId: Option<string>, pageParam: Option<string>, limitParam: Option<string>,
                                      rows: seq<Expense>, queryFails: bool, countFails: bool)
    requires userId.Some?
    ensures var r := Get(userId, pageParam, limitParam, rows, queryFails, countFails);
      && (r.Listed? <==> Lists(pageParam, limitParam, queryFails))
      && (r.Listed? ==> Status(r) == 200)
      && (!r.Listed? ==> r == ServerError("Failed to fetch expenses") && Status(r) == 500)
  {
    var r := Get(userId, pageParam, limitParam, rows, queryFails, countFails);
    if Lists(pageParam, limitParam, queryFails) {
      assert r.Listed?;
    } else {
      assert r == ServerError("Failed to fetch expenses");
    }
  }

  /**
    A listed answer holds the requested page of the caller's rows, with the
    caller's row count (0 when the count fails) and the page count of that
    total.
  */
  lemma {:induction false} GetListing(userId: Option<string>, pageParam: Option<string>, limitParam: Option<string>,
                                      rows: seq<Expense>, queryFails: bool, countFails: bool)
    requires userId.Some? && Lists(pageParam, limitParam, queryFails)
    ensures var r := Get(userId, pageParam, limitParam, rows, queryFails, countFails);
      var page := RequestedPage(pageParam);
      var limit := Limit(limitParam);
      var total := if countFails then 0 else |Filter(rows, OwnedBy(userId.value))|;
      && r.Listed?
      && r.rows == PageRows(userId.value, page.value, limit.value, rows)
      && r.pagination == Pagination(page, limit, total)
      && r.pagination.PageCount() == TotalPages(total, limit.value)
  {
  }

  /**
    A page holds at most `limit` rows, all the caller's, taken in list order
    from the offset on and joined with their category.
  */
  lemma {:induction false} ListedPage(userId: string, page: int, limit: int, rows: seq<Expense>)
    requires page >= 1 && limit >= 1
    ensures var r := PageRows(userId, page, limit, rows);
      var offset := Offset(page, limit);
      var ordered := Ordered(Filter(rows, OwnedBy(userId)));
      && |r| <= limit
      && (forall i :: 0 <= i < |r| ==>
            offset + i < |ordered|
            && r[i] == ordered[offset + i].(categories := GetCategoryById(ordered[offset + i].categoryId))
            && r[i].userId == userId)
  {
    var ordered := Ordered(Filter(rows, OwnedBy(userId)));
    forall k | 0 <= k < |ordered|
      ensures ordered[k].userId == userId
    {
      OrderedOwned(Filter(rows, OwnedBy(userId)), userId, k);
    }
    JoinedWindow(ordered, Offset(page, limit), limit, userId);
  }

  /** The joined window of rows that all belong to one user. */
  lemma {:induction false} JoinedWindow(ordered: seq<Expense>, offset: nat, limit: nat, userId: string)
    requires forall k :: 0 <= k < |ordered| ==> ordered[k].userId == userId
    ensures var r := Joined(Window(ordered, offset, limit));
      && |r| <= limit
      && (forall i :: 0 <= i < |r| ==>
            offset + i < |ordered|
            && r[i] == ordered[offset + i].(categories := GetCategoryById(ordered[offset + i].categoryId))
            && r[i].userId == userId)
  {
  }

  /** Ordering keeps exactly the rows and puts them by date, newest first, then by creation time, latest first. */
  lemma {:induction false} OrderedRows(rows: seq<Expense>)
    ensures multiset(Ordered(rows)) == multiset(rows)
    ensures OrderedDesc(Ordered(rows), DateKey, NegatedCreated)
  {
    var byCreated := SortDesc(rows, CreatedKey);
    SortDescOrdered(rows, CreatedKey, Unranked);
    assert TiesRanked(byCreated, DateKey, NegatedCreated) by {
      forall i, j | 0 <= i < j < |byCreated| && DateKey(byCreated[i]) == DateKey(byCreated[j])
        ensures NegatedCreated(byCreated[i]) <= NegatedCreated(byCreated[j])
      {
        assert CreatedKey(byCreated[i]) >= CreatedKey(byCreated[j]);
      }
    }
    SortDescOrdered(byCreated, DateKey, NegatedCreated);
  }

  /** Among rows of the same date, a later creation time ranks first. */
  function NegatedCreated(e: Expense): int {
    -e.createdAt
  }

  lemma {:induction false} OrderedOwned(owned: seq<Expense>, userId: string, k: int)
    requires forall i :: 0 <= i < |owned| ==> owned[i].userId == userId
    requires 0 <= k < |Ordered(owned)|
    ensures Ordered(owned)[k].userId == userId
  {
    var byCreated := SortDesc(owned, CreatedKey);
    var i := SortDescFrom(byCreated, DateKey, Ordered(owned)[k]);
    var j := SortDescFrom(owned, CreatedKey, byCreated[i]);
  }

  /**
    With a limit of at least 1, the page count is a whole number: the least
    number of pages of `limit` rows that holds every row, and 0 when there
    is none.
  */
  lemma {:induction false} TotalPagesCeil(total: nat, limit: int)
    requires limit >= 1
    ensures TotalPages(total, limit) == Fin(((total + limit - 1) / limit) as real)
    ensures var n := (total + limit - 1) / limit;
      && (n - 1) * limit < total <= n * limit
      && (total == 0 <==> n == 0)
  {
    var n := (total + limit - 1) / limit;
    assert n * limit <= total + limit - 1 < n * limit + limit;
    assert ((n - 1) * limit) as real < total as real <= (n * limit) as real;
    DivStrict(((n - 1) * limit) as real, total as real, limit as real);
    DivMono(total as real, (n * limit) as real, limit as real);
    assert ((n - 1) * limit) as real / limit as real == (n - 1) as real;
    assert (n * limit) as real / limit as real == n as real;
    CeilUnique(total as real / limit as real, n);
  }

  /** The offset of a page is the rows of the pages before it. */
  lemma {:induction false} OffsetIsProduct(page: int, limit: int)
    requires page >= 1 && limit >= 1
    ensures Offset(page, limit) == (page - 1) * limit
    decreases page
  {
    if page > 1 {
      OffsetIsProduct(page - 1, limit);
    }
  }

  lemma {:induction false} CeilUnique(x: real, n: int)
    requires (n - 1) as real < x <= n as real
    ensures Ceil(x) == n
  {
  }

  lemma {:induction false} DivMono(a: real, b: real, c: real)
    requires a <= b && c > 0.0
    ensures a / c <= b / c
  {
  }

  lemma {:induction false} DivStrict(a: real, b: real, c: real)
    requires a < b && c > 0.0
    ensures a / c < b / c
  {
  }

  lemma {:induction false} MulLess(a: int, b: int, c: int)
    requires c >= 1 && a * c < b * c
    ensures a < b
  {
  }

  /**
    Every row of the caller's ordered list is on exactly one page: row `k`
    is entry `k % limit` of page `k / limit + 1`, and that page is within the
    page count.
  */
  lemma {:induction false} RowOnItsPage(ordered: seq<Expense>, limit: int, k: int)
    requires limit >= 1 && 0 <= k < |ordered|
    ensures var page := k / limit + 1;
      && k % limit < |Window(ordered, Offset(page, limit), limit)|
      && Window(ordered, Offset(page, limit), limit)[k % limit] == ordered[k]
      && page as real <= TotalPages(|ordered|, limit).value
  {
    var page := k / limit + 1;
    var offset := Offset(page, limit);
    OffsetIsProduct(page, limit);
    assert offset == (k / limit) * limit;
    assert offset + k % limit == k;
    assert 0 <= k % limit < limit;
    var w := Window(ordered, offset, limit);
    assert w == ordered[offset..if offset + limit < |ordered| then offset + limit else |ordered|];
    assert w[k % limit] == ordered[k];
    TotalPagesCeil(|ordered|, limit);
    var n := (|ordered| + limit - 1) / limit;
    assert (k / limit) * limit <= k < n * limit;
    MulLess(k / limit, n, limit);
  }
}
