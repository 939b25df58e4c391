/**
 The expense store: the `expenses` table of the SQLite database, held in
 memory. `rows` maps each id to its columns; `nextId` stands for SQLite's
 `AUTOINCREMENT` counter (one more than the largest id ever issued), so an
 id is never handed out twice, even after its row is deleted.
 */
module Store {
  import opened ExpenseTypes
  import opened Queries
  import opened EditBuilder
  import opened Schema

  class ExpenseStore {
    /** The column names of the `expenses` table; `None` until `CREATE TABLE` has run. */
    var table: Option<seq<string>>
    var rows: map<int, Row>
    var nextId: int
    /** Every id ever assigned by an insert. */
    ghost var Issued: set<int>

    ghost predicate Valid()
      reads this
    {
      && nextId >= 1
      && rows.Keys <= Issued
      && (forall id :: id in Issued ==> 1 <= id < nextId)
      && (table.Some? ==> DistinctNames(table.value))
    }

    /** A database file without the `expenses` table. */
    constructor ()
      ensures Valid()
      ensures table == None && rows == map[] && nextId == 1 && Issued == {}
    {
      table, rows, nextId := None, map[], 1;
      Issued := {};
    }

    /**
     `ALTER TABLE expenses ADD COLUMN name`: fails with "duplicate column
     name" when the table already has the column, and otherwise appends it.
     */
    method AlterTableAddColumn(name: string) returns (failure: Option<string>)
      requires Valid() && table.Some?
      modifies this`table
      ensures Valid()
      ensures HasColumn(old(table.value), name) ==>
        failure == Some("duplicate column name: " + name) && table == old(table)
      ensures !HasColumn(old(table.value), name) ==>
        failure == None && table == Some(old(table.value) + [name])
    {
      if HasColumn(table.value, name) {
        return Some("duplicate column name: " + name);
      }
      AddColumnDistinct(table.value, name);
      table := Some(table.value + [name]);
      failure := None;
    }

    /**
     `init_db`: create the table when it is absent, then try to add
     `paid_by` and ignore the failure. Afterwards the table has `paid_by`
     exactly once, and a second run changes nothing.
     */
    method InitDb()
      requires Valid()
      modifies this`table
      ensures Valid()
      ensures table == Some(InitColumns(old(table)))
      ensures Count(table.value, PaidByColumn) == 1
      ensures InitColumns(table) == table.value
    {
      InitColumnsCorrect(table);
      InitColumnsIdempotent(table);
      if table.None? {
        TableColumnsDistinct();
        table := Some(TableColumns);
      }
      var failure := AlterTableAddColumn(PaidByColumn);
    }

    /**
     `add_expense`: insert one row under a fresh id, larger than every id
     ever issued. A listing afterwards is the old listing followed by the
     new record whenever its date is in range.
     */
    method AddExpense(date: string, amount: real, category: string,
                      subcategory: string := "", note: string := "", paidBy: string := "")
      returns (r: Response)
      requires Valid()
      modifies this`rows, this`nextId, this`Issued
      ensures Valid()
      ensures r == Added(old(nextId)) && nextId == old(nextId) + 1
      ensures r.id !in old(Issued) && r.id !in old(rows)
      ensures forall k :: k in old(Issued) ==> k < r.id
      ensures Issued == old(Issued) + {r.id}
      ensures rows == old(rows)[r.id := Row(date, amount, category, subcategory, note, paidBy)]
      ensures forall lo, hi :: ListExpenses(lo, hi) == old(ListExpenses(lo, hi)) + Listed(r.id, rows[r.id], lo, hi)
    {
      var id := nextId;
      var row := Row(date, amount, category, subcategory, note, paidBy);
      ghost var before := rows;
      rows := rows[id := row];
      nextId := nextId + 1;
      Issued := Issued + {id};
      r := Added(id);
      forall lo, hi ensures ListExpenses(lo, hi) == old(ListExpenses(lo, hi)) + Listed(id, row, lo, hi) {
        ListAfterInsert(before, id, row, lo, hi);
      }
    }

    /**
     `list_expenses`: exactly the records whose date lies in
     [startDate, endDate] under text comparison, in strictly ascending id
     order; an empty sequence when none does.
     */
    function ListExpenses(startDate: string, endDate: string): (r: seq<Expense>)
      reads this
      requires Valid()
      ensures forall i, j :: 0 <= i < j < |r| ==> r[i].id < r[j].id
      ensures forall e :: e in r <==> e.id in rows && e.row == rows[e.id] && Between(e.row.date, startDate, endDate)
    {
      ListUpTo(rows, nextId, startDate, endDate)
    }

    /**
     `summarize`: one group per category that has a record in the date
     range (restricted to `category` when that is a non-empty string), in
     strictly ascending category order, each holding the sum of the amounts
     of the listed records of that category.
     */
    function Summarize(startDate: string, endDate: string, category: Option<string> := None): (r: seq<Total>)
      reads this
      requires Valid()
      ensures Sorted(r)
      ensures Categories(r) == set e | e in ListExpenses(startDate, endDate) && Keep(category, e.row.category) :: e.row.category
      ensures forall i :: 0 <= i < |r| ==>
        r[i].totalAmount == SumFor(ListExpenses(startDate, endDate), r[i].category)
      ensures Active(category) ==> forall i :: 0 <= i < |r| ==> r[i].category == category.value
    {
      var listed := ListExpenses(startDate, endDate);
      SummaryCorrect(listed, category);
      Summary(listed, category)
    }

    /**
     `delete_expense`: remove the row with the given id and report it, or
     report "Expense not found" and change nothing.
     */
    method DeleteExpense(expenseId: int) returns (r: Response)
      requires Valid()
      modifies this`rows
      ensures Valid()
      ensures old(expenseId in rows) ==> r == Deleted(expenseId) && rows == old(rows) - {expenseId}
      ensures old(expenseId !in rows) ==> r == Failed(NotFound) && rows == old(rows)
    {
      var rowcount := if expenseId in rows then 1 else 0;
      rows := rows - {expenseId};
      if rowcount == 0 {
        return Failed(NotFound);
      }
      return Deleted(expenseId);
    }

    /**
     `UPDATE expenses SET fields[0] = ?, ... WHERE id = ?` with the last
     parameter as the id: rewrites the matching row and reports how many
     rows matched.
     */
    method ExecuteUpdate(fields: seq<Field>, params: seq<Value>) returns (rowcount: nat)
      requires Valid()
      requires |params| == |fields| + 1 && params[|fields|].IntValue?
      requires forall i :: 0 <= i < |fields| ==> Fits(fields[i], params[i])
      modifies this`rows
      ensures Valid()
      ensures var id := params[|fields|].i;
        if id in old(rows) then
          rowcount == 1 && rows == old(rows)[id := SetColumns(old(rows)[id], fields, params[..|fields|])]
        else
          rowcount == 0 && rows == old(rows)
    {
      var id := params[|fields|].i;
      if id in rows {
        rows := rows[id := SetColumns(rows[id], fields, params[..|fields|])];
        rowcount := 1;
      } else {
        rowcount := 0;
      }
    }

    /**
     `edit_expense`: with no argument supplied, report "No fields to
     update" without touching the store; otherwise overwrite exactly the
     supplied columns of the row with the given id, or report "Expense not
     found" and change nothing.
     */
    method EditExpense(expenseId: int, date: Option<string> := None, amount: Option<real> := None,
                       category: Option<string> := None, subcategory: Option<string> := None,
                       note: Option<string> := None, paidBy: Option<string> := None)
      returns (r: Response)
      requires Valid()
      modifies this`rows
      ensures Valid()
      ensures var p := Patch(date, amount, category, subcategory, note, paidBy);
        if NoFields(p) then
          r == Failed(NoFieldsToUpdate) && rows == old(rows)
        else if expenseId in old(rows) then
          r == Updated(expenseId) && rows == old(rows)[expenseId := Overwrite(old(rows)[expenseId], p)]
        else
          r == Failed(NotFound) && rows == old(rows)
    {
      var p := Patch(date, amount, category, subcategory, note, paidBy);
      var fields, params := BuildUpdate(p);
      if fields == [] {
        return Failed(NoFieldsToUpdate);
      }
      if expenseId in rows {
        UpdateOverwrites(rows[expenseId], p, fields, params);
      }
      params := params + [IntValue(expenseId)];
      assert params[..|fields|] == params[..|params| - 1];
      var rowcount := ExecuteUpdate(fields, params);
      if rowcount == 0 {
        return Failed(NotFound);
      }
      return Updated(expenseId);
    }
  }
}
