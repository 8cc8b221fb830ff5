/**
  The optimistic update reconciler of the expense page
  (src/components/expense-manager.tsx). A pure reducer applies one `update`
  or `delete` action to a list, matching by id; the manager keeps the
  authoritative list, the optimistic view derived from it, the selected
  expenses and the two dialog flags, and commits the server's answer into
  the authoritative list or leaves that list as it was.
*/
module Reconciler {
  import opened Wrappers
  import opened Seqs
  import opened ExpenseModel
  import opened EditValidation

  datatype ActionType = UpdateAction | DeleteAction | OtherAction

  datatype Action = Action(kind: ActionType, expense: Expense)

  /** `xs.map(e => e.id === id ? x : e)`. */
  function ReplaceWhere(xs: seq<Expense>, id: string, x: Expense): (r: seq<Expense>)
    ensures |r| == |xs|
    ensures forall i :: 0 <= i < |xs| && xs[i].id == id ==> r[i] == x
    ensures forall i :: 0 <= i < |xs| && xs[i].id != id ==> r[i] == xs[i]
  {
    if |xs| == 0 then []
    else ReplaceWhere(xs[..|xs| - 1], id, x) + [if xs[|xs| - 1].id == id then x else xs[|xs| - 1]]
  }

  function HasOtherId(id: string): Expense -> bool {
    (e: Expense) => e.id != id
  }

  /** `xs.filter(e => e.id !== id)`. */
  function RemoveById(xs: seq<Expense>, id: string): (r: seq<Expense>)
    ensures forall i :: 0 <= i < |r| ==> r[i].id != id && r[i] in xs
    ensures forall i :: 0 <= i < |xs| && xs[i].id != id ==> xs[i] in r
  {
    Filter(xs, HasOtherId(id))
  }

  /** The optimistic reducer. */
  function Apply(state: seq<Expense>, action: Action): seq<Expense> {
    match action.kind
    case UpdateAction => ReplaceWhere(state, action.expense.id, action.expense)
    case DeleteAction => RemoveById(state, action.expense.id)
    case OtherAction => state
  }

  /** How many elements carry the id. */
  function CountId(xs: seq<Expense>, id: string): nat {
    if |xs| == 0 then 0
    else CountId(xs[..|xs| - 1], id) + (if xs[|xs| - 1].id == id then 1 else 0)
  }

  /** Replacing an id that does not occur changes nothing. */
  lemma ReplaceAbsent(xs: seq<Expense>, id: string, x: Expense)
    requires forall i :: 0 <= i < |xs| ==> xs[i].id != id
    ensures ReplaceWhere(xs, id, x) == xs
  {
  }

  /** An update that keeps the id keeps the list's ids position by position, and repeating it changes nothing. */
  lemma ReplaceKeepsIds(xs: seq<Expense>, x: Expense)
    ensures forall i :: 0 <= i < |xs| ==> ReplaceWhere(xs, x.id, x)[i].id == xs[i].id
    ensures ReplaceWhere(ReplaceWhere(xs, x.id, x), x.id, x) == ReplaceWhere(xs, x.id, x)
  {
  }

  /** Deleting removes exactly the elements carrying the id. */
  lemma {:induction false} RemoveCount(xs: seq<Expense>, id: string)
    ensures |RemoveById(xs, id)| == |xs| - CountId(xs, id)
  {
    if |xs| > 0 {
      RemoveCount(xs[..|xs| - 1], id);
    }
  }

  /** Deleting keeps the relative order of the rest: it distributes over concatenation. */
  lemma RemoveAppend(a: seq<Expense>, b: seq<Expense>, id: string)
    ensures RemoveById(a + b, id) == RemoveById(a, id) + RemoveById(b, id)
  {
    FilterAppend(a, b, HasOtherId(id));
  }

  /** Deleting an id that does not occur changes nothing. */
  lemma RemoveAbsent(xs: seq<Expense>, id: string)
    requires forall i :: 0 <= i < |xs| ==> xs[i].id != id
    ensures RemoveById(xs, id) == xs
  {
    FilterKeepsAll(xs, HasOtherId(id));
  }

  /** An action of any other type returns the state unchanged. */
  lemma ApplyOther(state: seq<Expense>, e: Expense)
    ensures Apply(state, Action(OtherAction, e)) == state
  {
  }

  /**
    A list with distinct ids [a, b, c]: updating b replaces b alone, deleting
    b leaves [a, c].
  */
  lemma {:induction false} ThreeElementExamples(a: Expense, b: Expense, c: Expense, b': Expense)
    requires a.id != b.id && c.id != b.id && b'.id == b.id
    ensures Apply([a, b, c], Action(UpdateAction, b')) == [a, b', c]
    ensures Apply([a, b, c], Action(DeleteAction, b)) == [a, c]
  {
    var p := HasOtherId(b.id);
    assert [a, b, c] == [a] + [b] + [c];
    FilterAppend([a] + [b], [c], p);
    FilterAppend([a], [b], p);
    assert Filter([a], p) == [a] by { assert [a][..0] == []; }
    assert Filter([b], p) == [] by { assert [b][..0] == []; }
    assert Filter([c], p) == [c] by { assert [c][..0] == []; }
  }

  /**
    The record shown while an edit is pending: the selected expense with the
    submitted fields and a new update time. `day` is the calendar day named
    by the submitted date's ISO string.
  */
  function Edited(e: Expense, data: EditData, day: int, now: int): Expense {
    e.(amount := data.amount, categoryId := data.categoryId, description := Some(data.description),
       date := day, updatedAt := now)
  }

  /** The state machine of one mutation. */
  datatype Phase = Idle | Pending(action: Action) | Committed(action: Action) | RolledBack(action: Action)

  class ExpenseManager {
    /** The authoritative list (`expenses`). */
    var expenses: seq<Expense>
    /** The list on screen (`optimisticExpenses`). */
    var overlay: seq<Expense>
    var editingExpense: Option<Expense>
    var deletingExpense: Option<Expense>
    var isEditDialogOpen: bool
    var isDeleteDialogOpen: bool
    var phase: Phase

    /** The view is the authoritative list with at most the one pending action applied. */
    ghost predicate Valid()
      reads this
    {
      overlay == (if phase.Pending? then Apply(expenses, phase.action) else expenses)
    }

    constructor (initial: seq<Expense>)
      ensures Valid()
      ensures expenses == initial && overlay == initial && phase == Idle
      ensures editingExpense.None? && deletingExpense.None?
      ensures !isEditDialogOpen && !isDeleteDialogOpen
    {
      expenses := initial;
      overlay := initial;
      editingExpense := None;
      deletingExpense := None;
      isEditDialogOpen := false;
      isDeleteDialogOpen := false;
      phase := Idle;
    }

    /** The effect on `initialExpenses`: the authoritative list is reset to the new input. */
    method SyncInitial(initial: seq<Expense>)
      requires Valid()
      modifies this
      ensures Valid()
      ensures expenses == initial
      ensures phase == old(phase) && editingExpense == old(editingExpense) && deletingExpense == old(deletingExpense)
      ensures isEditDialogOpen == old(isEditDialogOpen) && isDeleteDialogOpen == old(isDeleteDialogOpen)
    {
      expenses := initial;
      overlay := if phase.Pending? then Apply(expenses, phase.action) else expenses;
    }

    method HandleEdit(e: Expense)
      requires Valid()
      modifies this
      ensures Valid()
      ensures editingExpense == Some(e) && isEditDialogOpen
      ensures expenses == old(expenses) && overlay == old(overlay) && phase == old(phase)
      ensures deletingExpense == old(deletingExpense) && isDeleteDialogOpen == old(isDeleteDialogOpen)
    {
      editingExpense := Some(e);
      isEditDialogOpen := true;
    }

    method HandleDelete(e: Expense)
      requires Valid()
      modifies this
      ensures Valid()
      ensures deletingExpense == Some(e) && isDeleteDialogOpen
      ensures expenses == old(expenses) && overlay == old(overlay) && phase == old(phase)
      ensures editingExpense == old(editingExpense) && isEditDialogOpen == old(isEditDialogOpen)
    {
      deletingExpense := Some(e);
      isDeleteDialogOpen := true;
    }

    /**
      The synchronous part of `handleEditSubmit`: nothing when no expense is
      selected; otherwise the edited record is shown in place of the selected
      one while the authoritative list waits for the server.
    */
    method EditSubmit(data: EditData, day: int, now: int)
      requires Valid() && !phase.Pending?
      modifies this
      ensures Valid()
      ensures old(editingExpense).None? ==> unchanged(this)
      ensures old(editingExpense).Some? ==>
        && phase == Pending(Action(UpdateAction, Edited(old(editingExpense).value, data, day, now)))
        && expenses == old(expenses)
        && editingExpense == old(editingExpense) && isEditDialogOpen == old(isEditDialogOpen)
        && deletingExpense == old(deletingExpense) && isDeleteDialogOpen == old(isDeleteDialogOpen)
    {
      if editingExpense.None? {
        return;
      }
      var updated := Edited(editingExpense.value, data, day, now);
      phase := Pending(Action(UpdateAction, updated));
      overlay := ReplaceWhere(expenses, updated.id, updated);
    }

    /**
      The server's answer to a pending edit. On success (`result` holds the
      returned record) the matching authoritative entries become that record
      and the dialog closes with no selection left; on failure the
      authoritative list and the dialog stay as they were, the view falls
      back to the authoritative list and the error is raised again.
    */
    method EditSettled(result: Option<Expense>) returns (raised: bool)
      requires Valid() && phase.Pending? && phase.action.kind == UpdateAction
      modifies this
      ensures Valid() && overlay == expenses
      ensures deletingExpense == old(deletingExpense) && isDeleteDialogOpen == old(isDeleteDialogOpen)
      ensures result.Some? ==>
        && expenses == ReplaceWhere(old(expenses), old(phase.action.expense.id), result.value)
        && !isEditDialogOpen && editingExpense.None?
        && phase == Committed(old(phase.action)) && !raised
      ensures result.None? ==>
        && expenses == old(expenses)
        && isEditDialogOpen == old(isEditDialogOpen) && editingExpense == old(editingExpense)
        && phase == RolledBack(old(phase.action)) && raised
    {
      var action := phase.action;
      if result.Some? {
        expenses := ReplaceWhere(expenses, action.expense.id, result.value);
        isEditDialogOpen := false;
        editingExpense := None;
        phase := Committed(action);
        raised := false;
      } else {
        phase := RolledBack(action);
        raised := true;
      }
      overlay := expenses;
    }

    /**
      The synchronous part of `handleDeleteConfirm`: nothing when no expense
      is selected; otherwise the selected expense disappears from the view.
    */
    method DeleteConfirm()
      requires Valid() && !phase.Pending?
      modifies this
      ensures Valid()
      ensures old(deletingExpense).None? ==> unchanged(this)
      ensures old(deletingExpense).Some? ==>
        && phase == Pending(Action(DeleteAction, old(deletingExpense).value))
        && expenses == old(expenses)
        && editingExpense == old(editingExpense) && isEditDialogOpen == old(isEditDialogOpen)
        && deletingExpense == old(deletingExpense) && isDeleteDialogOpen == old(isDeleteDialogOpen)
    {
      if deletingExpense.None? {
        return;
      }
      phase := Pending(Action(DeleteAction, deletingExpense.value));
      overlay := RemoveById(expenses, deletingExpense.value.id);
    }

    /**
      The server's answer to a pending delete. On success the entries with
      that id leave the authoritative list, the dialog closes and the
      selection is cleared; on failure everything but the view stays as it
      was and no error is raised: the handler leaves `isDeleteDialogOpen` as
      it was, and the dialog closes itself after the handler returns.
    */
    method DeleteSettled(ok: bool) returns (raised: bool)
      requires Valid() && phase.Pending? && phase.action.kind == DeleteAction
      modifies this
      ensures Valid() && overlay == expenses && !raised
      ensures editingExpense == old(editingExpense) && isEditDialogOpen == old(isEditDialogOpen)
      ensures ok ==>
        && expenses == RemoveById(old(expenses), old(phase.action.expense.id))
        && !isDeleteDialogOpen && deletingExpense.None?
        && phase == Committed(old(phase.action))
      ensures !ok ==>
        && expenses == old(expenses)
        && isDeleteDialogOpen == old(isDeleteDialogOpen) && deletingExpense == old(deletingExpense)
        && phase == RolledBack(old(phase.action))
    {
      var action := phase.action;
      if ok {
        expenses := RemoveById(expenses, action.expense.id);
        isDeleteDialogOpen := false;
        deletingExpense := None;
        phase := Committed(action);
      } else {
        phase := RolledBack(action);
      }
      overlay := expenses;
      raised := false;
    }
  }

  lemma {:induction false} ReplaceMiddle(a: Expense, b: Expense, c: Expense, x: Expense)
    requires a.id != b.id && c.id != b.id
    ensures ReplaceWhere([a, b, c], b.id, x) == [a, x, c]
  {
    var r := ReplaceWhere([a, b, c], b.id, x);
    assert r[0] == a && r[1] == x && r[2] == c;
  }

  /**
    An edit of b in [a, b, c] (distinct ids): while pending the view is
    [a, b', c], and a commit with the server's record s gives [a, s, c].
  */
  method EditScenario(a: Expense, b: Expense, c: Expense, data: EditData, day: int, now: int, s: Expense)
    returns (whilePending: seq<Expense>, afterCommit: seq<Expense>)
    requires a.id != b.id && c.id != b.id
    ensures whilePending == [a, Edited(b, data, day, now), c]
    ensures afterCommit == [a, s, c]
  {
    var edited := Edited(b, data, day, now);
    ReplaceMiddle(a, b, c, edited);
    ReplaceMiddle(a, b, c, s);
    var m := new ExpenseManager([a, b, c]);
    m.HandleEdit(b);
    m.EditSubmit(data, day, now);
    assert m.phase == Pending(Action(UpdateAction, edited)) && m.expenses == [a, b, c];
    whilePending := m.overlay;
    var raised := m.EditSettled(Some(s));
    afterCommit := m.overlay;
  }

  /** An edit of b in [a, b, c] (distinct ids) that fails shows [a, b, c] again. */
  method EditFailureScenario(a: Expense, b: Expense, c: Expense, data: EditData, day: int, now: int)
    returns (afterFailure: seq<Expense>)
    requires a.id != b.id && c.id != b.id
    ensures afterFailure == [a, b, c]
  {
    var m := new ExpenseManager([a, b, c]);
    m.HandleEdit(b);
    m.EditSubmit(data, day, now);
    var raised := m.EditSettled(None);
    afterFailure := m.overlay;
  }

  /**
    A delete of b in [a, b, c] (distinct ids): while pending and after a
    commit the view is [a, c]; a failure shows [a, b, c] again.
  */
  method DeleteScenario(a: Expense, b: Expense, c: Expense)
    returns (whilePending: seq<Expense>, afterCommit: seq<Expense>, afterFailure: seq<Expense>)
    requires a.id != b.id && c.id != b.id
    ensures whilePending == [a, c]
    ensures afterCommit == [a, c]
    ensures afterFailure == [a, b, c]
  {
    ThreeElementExamples(a, b, c, b);
    var m := new ExpenseManager([a, b, c]);
    m.HandleDelete(b);
    m.DeleteConfirm();
    whilePending := m.overlay;
    var raised := m.DeleteSettled(true);
    afterCommit := m.overlay;
    var n := new ExpenseManager([a, b, c]);
    n.HandleDelete(b);
    n.DeleteConfirm();
    raised := n.DeleteSettled(false);
    afterFailure := n.overlay;
  }
}
