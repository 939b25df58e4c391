/**
 Sequences of tool calls on one store, with what the store promises about
 each sequence as a whole.
 */
module Scenarios {
  import opened ExpenseTypes
  import opened Queries
  import opened Schema
  import opened Store

  /** Deleting the same id twice: "ok" the first time, "Expense not found" the second. */
  method DeleteTwice(s: ExpenseStore, id: int) returns (first: Response, second: Response)
    requires s.Valid() && id in s.rows
    modifies s
    ensures s.Valid()
    ensures first == Deleted(id) && second == Failed(NotFound)
    ensures s.rows == old(s.rows) - {id}
  {
    first := s.DeleteExpense(id);
    second := s.DeleteExpense(id);
  }

  /** An id freed by a delete is not handed out again: the next insert gets a larger one. */
  method AddDeleteAdd(s: ExpenseStore, date: string, amount: real, category: string)
    returns (first: Response, second: Response)
    requires s.Valid()
    modifies s
    ensures s.Valid()
    ensures first.Added? && second.Added? && first.id < second.id
    ensures first.id !in s.rows && second.id in s.rows
  {
    first := s.AddExpense(date, amount, category);
    var deleted := s.DeleteExpense(first.id);
    second := s.AddExpense(date, amount, category);
  }

  /** An edit with every argument left out fails and leaves every record as it was. */
  method EditNothing(s: ExpenseStore, id: int) returns (r: Response)
    requires s.Valid()
    modifies s
    ensures s.Valid()
    ensures r == Failed(NoFieldsToUpdate) && s.rows == old(s.rows)
  {
    r := s.EditExpense(id);
  }

  /** Starting the server twice leaves the same schema as starting it once. */
  method InitDbTwice(s: ExpenseStore)
    requires s.Valid()
    modifies s
    ensures s.Valid()
    ensures s.table == Some(InitColumns(old(s.table)))
    ensures Count(s.table.value, PaidByColumn) == 1
  {
    s.InitDb();
    s.InitDb();
  }

  /** A date in the middle of March lies in the range of that month. */
  lemma MarchRange()
    ensures Between("2024-03-15", "2024-03-01", "2024-03-31")
  {
  }

  /** A one-record listing summarised without a filter gives that record's category and amount. */
  lemma SummaryOfOne(e: Expense)
    ensures Summary([e], Some("")) == [Total(e.row.category, e.row.amount)]
  {
    assert [e][..0] == [];
    assert !Active(Some(""));
    assert Select([e], Some("")) == [] + [e];
    assert Group([e]) == AddTo([], e.row.category, e.row.amount);
  }

  /**
   On a fresh database, one insert with the defaults gets id 1 and stores
   the given fields with empty subcategory, note and payer.
   */
  method FirstExpense() returns (s: ExpenseStore, added: Response)
    ensures fresh(s) && s.Valid()
    ensures added == Added(1)
    ensures s.rows == map[1 := Row("2024-03-15", 12.5, "food", "", "", "")]
  {
    s := new ExpenseStore();
    s.InitDb();
    added := s.AddExpense("2024-03-15", 12.5, "food");
  }

  /** Listing the month of that record gives exactly that record. */
  method ListMonth(s: ExpenseStore) returns (listed: seq<Expense>)
    requires s.Valid() && s.rows == map[1 := Row("2024-03-15", 12.5, "food", "", "", "")]
    ensures listed == s.ListExpenses("2024-03-01", "2024-03-31") == [Expense(1, s.rows[1])]
  {
    MarchRange();
    listed := s.ListExpenses("2024-03-01", "2024-03-31");
    OnlyRecord(listed, Expense(1, s.rows[1]));
  }

  /** A listing in ascending id order whose every entry is `x`, and that holds `x`, is `[x]`. */
  lemma OnlyRecord(l: seq<Expense>, x: Expense)
    requires x in l && forall e :: e in l ==> e == x
    requires forall i, j :: 0 <= i < j < |l| ==> l[i].id < l[j].id
    ensures l == [x]
  {
    forall i | 0 <= i < |l| ensures l[i] == x {
      assert l[i] in l;
    }
    assert |l| >= 2 ==> l[0].id < l[1].id;
  }

  /** Summarising that month with an empty category (no filter) gives one group holding its amount. */
  method SummarizeMonth(s: ExpenseStore) returns (totals: seq<Total>)
    requires s.Valid() && s.rows == map[1 := Row("2024-03-15", 12.5, "food", "", "", "")]
    ensures totals == [Total("food", 12.5)]
  {
    var listed := ListMonth(s);
    SummaryOfOne(listed[0]);
    totals := s.Summarize("2024-03-01", "2024-03-31", Some(""));
    assert totals == Summary(listed, Some(""));
  }
}
