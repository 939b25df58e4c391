/**
 The column list of the `expenses` table and what `init_db` does to it:
 `CREATE TABLE IF NOT EXISTS` with the current columns, then
 `ALTER TABLE expenses ADD COLUMN paid_by`, whose "duplicate column name"
 failure is swallowed. SQLite compares column names without regard to
 ASCII case.
 */
module Schema {
  import opened ExpenseTypes

  /** The columns `CREATE TABLE IF NOT EXISTS expenses(...)` declares, in order. */
  const TableColumns: seq<string> := ["id", "date", "amount", "category", "subcategory", "note", "paid_by"]

  /** The column added for tables created by an earlier version of the schema. */
  const PaidByColumn := "paid_by"

  function LowerChar(c: char): char {
    if 'A' <= c <= 'Z' then (c as int + 32) as char else c
  }

  /** ASCII lower case, the folding SQLite applies to identifiers. */
  function Lower(s: string): (r: string)
    ensures |r| == |s| && forall i :: 0 <= i < |s| ==> r[i] == LowerChar(s[i])
  {
    seq(|s|, i requires 0 <= i < |s| => LowerChar(s[i]))
  }

  /** Two column names that SQLite treats as the same column. */
  predicate SameName(a: string, b: string) {
    Lower(a) == Lower(b)
  }

  predicate HasColumn(cols: seq<string>, name: string) {
    exists i :: 0 <= i < |cols| && SameName(cols[i], name)
  }

  /** No two columns of a table share a name (SQLite refuses such a table). */
  predicate DistinctNames(cols: seq<string>) {
    forall i, j :: 0 <= i < j < |cols| ==> !SameName(cols[i], cols[j])
  }

  /** How many columns of `cols` are named `name`. */
  function Count(cols: seq<string>, name: string): nat {
    if cols == [] then 0
    else Count(cols[..|cols| - 1], name) + (if SameName(cols[|cols| - 1], name) then 1 else 0)
  }

  /** `CREATE TABLE IF NOT EXISTS`: an existing table is kept as it is. */
  function CreateIfAbsent(table: Option<seq<string>>): seq<string> {
    table.GetOr(TableColumns)
  }

  /** The columns after `ALTER TABLE ADD COLUMN name`; a duplicate name fails and leaves them as they were. */
  function AddColumn(cols: seq<string>, name: string): seq<string> {
    if HasColumn(cols, name) then cols else cols + [name]
  }

  /** The columns after `init_db`, from the table found in the database (`None`: no table yet). */
  function InitColumns(table: Option<seq<string>>): seq<string> {
    AddColumn(CreateIfAbsent(table), PaidByColumn)
  }

  lemma {:induction false} CountZero(cols: seq<string>, name: string)
    ensures Count(cols, name) == 0 <==> !HasColumn(cols, name)
    decreases |cols|
  {
    if cols != [] {
      var init := cols[..|cols| - 1];
      CountZero(init, name);
      if HasColumn(init, name) {
        var i :| 0 <= i < |init| && SameName(init[i], name);
        assert cols[i] == init[i];
      }
      if HasColumn(cols, name) && !SameName(cols[|cols| - 1], name) {
        var i :| 0 <= i < |cols| && SameName(cols[i], name);
        assert init[i] == cols[i];
      }
    }
  }

  /** In a table without duplicate names, a present column occurs exactly once. */
  lemma {:induction false} CountOne(cols: seq<string>, name: string)
    requires DistinctNames(cols) && HasColumn(cols, name)
    ensures Count(cols, name) == 1
    decreases |cols|
  {
    var init, last := cols[..|cols| - 1], cols[|cols| - 1];
    assert DistinctNames(init) by {
      forall i, j | 0 <= i < j < |init| ensures !SameName(init[i], init[j]) {
        assert init[i] == cols[i] && init[j] == cols[j];
      }
    }
    if SameName(last, name) {
      CountZero(init, name);
    } else {
      var i :| 0 <= i < |cols| && SameName(cols[i], name);
      assert init[i] == cols[i];
      CountOne(init, name);
    }
  }

  lemma AddColumnDistinct(cols: seq<string>, name: string)
    requires DistinctNames(cols)
    ensures DistinctNames(AddColumn(cols, name))
    ensures HasColumn(AddColumn(cols, name), name)
  {
    var r := AddColumn(cols, name);
    if !HasColumn(cols, name) {
      forall i, j | 0 <= i < j < |r| ensures !SameName(r[i], r[j]) {
        if j == |cols| {
          assert !SameName(cols[i], name);
        }
      }
      assert SameName(r[|cols|], name);
    }
  }

  lemma SameNameLength(a: string, b: string)
    ensures SameName(a, b) ==> |a| == |b| && (|a| > 0 ==> LowerChar(a[0]) == LowerChar(b[0]))
  {
  }

  lemma TableColumnsDistinct()
    ensures DistinctNames(TableColumns)
  {
    var cols := TableColumns;
    // "date" and "note" are the only two names of equal length; they differ in the first letter
    forall i, j | 0 <= i < j < |cols| ensures !SameName(cols[i], cols[j]) {
      SameNameLength(cols[i], cols[j]);
    }
  }

  /**
   Whatever table `init_db` finds (none, or one without duplicate column
   names), afterwards the table exists, has no duplicate names and has the
   `paid_by` column exactly once; an existing table keeps its columns in
   place, with `paid_by` appended when it was missing.
   */
  lemma InitColumnsCorrect(table: Option<seq<string>>)
    requires table.Some? ==> DistinctNames(table.value)
    ensures DistinctNames(InitColumns(table))
    ensures Count(InitColumns(table), PaidByColumn) == 1
    ensures table.None? ==> InitColumns(table) == TableColumns
    ensures table.Some? ==> InitColumns(table)[..|table.value|] == table.value
    ensures table.Some? ==>
      |InitColumns(table)| == |table.value| + (if HasColumn(table.value, PaidByColumn) then 0 else 1)
  {
    TableColumnsDistinct();
    var created := CreateIfAbsent(table);
    AddColumnDistinct(created, PaidByColumn);
    CountOne(InitColumns(table), PaidByColumn);
    if table.None? {
      assert TableColumns[6] == PaidByColumn;
      assert HasColumn(TableColumns, PaidByColumn);
    }
  }

  /** Running `init_db` again (a restart) changes nothing. */
  lemma InitColumnsIdempotent(table: Option<seq<string>>)
    requires table.Some? ==> DistinctNames(table.value)
    ensures InitColumns(Some(InitColumns(table))) == InitColumns(table)
  {
    TableColumnsDistinct();
    AddColumnDistinct(CreateIfAbsent(table), PaidByColumn);
  }
}
