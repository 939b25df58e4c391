/**
 The values the expense tracker stores and returns: one row of the `expenses`
 table, the optional arguments of an edit, the bound parameters of an SQL
 statement and the structured responses of the tools.
 */
module ExpenseTypes {

  datatype Option<T> = None | Some(value: T) {
    function GetOr(default: T): T {
      match this
      case Some(v) => v
      case None => default
    }
  }

  /** The non-key columns of the `expenses` table. */
  datatype Field = Date | Amount | Category | Subcategory | Note | PaidBy

  /** The order in which an edit lists the columns it sets. */
  const FieldOrder: seq<Field> := [Date, Amount, Category, Subcategory, Note, PaidBy]

  /** The stored columns of one record; `id` is the key of the store's map. */
  datatype Row = Row(date: string, amount: real, category: string,
                     subcategory: string, note: string, paidBy: string)

  /** A record as `list_expenses` returns it: its id together with its columns. */
  datatype Expense = Expense(id: int, row: Row)

  /** One group of the `summarize` result. */
  datatype Total = Total(category: string, totalAmount: real)

  /** A value bound to a `?` placeholder of an SQL statement. */
  datatype Value = TextValue(s: string) | RealValue(x: real) | IntValue(i: int)

  /** The six optional keyword arguments of `edit_expense`; `None` means "not supplied". */
  datatype Patch = Patch(date: Option<string>, amount: Option<real>, category: Option<string>,
                         subcategory: Option<string>, note: Option<string>, paidBy: Option<string>)

  const NotFound := "Expense not found"
  const NoFieldsToUpdate := "No fields to update"

  /** The dictionaries the tools return: `{"status": "ok", ...}` or `{"status": "error", "message": ...}`. */
  datatype Response =
    | Added(id: int)
    | Deleted(deletedId: int)
    | Updated(updatedId: int)
    | Failed(message: string)

  /** The value a row holds in column `f`. */
  function Get(row: Row, f: Field): Value {
    match f
    case Date => TextValue(row.date)
    case Amount => RealValue(row.amount)
    case Category => TextValue(row.category)
    case Subcategory => TextValue(row.subcategory)
    case Note => TextValue(row.note)
    case PaidBy => TextValue(row.paidBy)
  }

  /** Whether `v` has the type column `f` is declared with (REAL for amount, TEXT otherwise). */
  predicate Fits(f: Field, v: Value) {
    if f == Amount then v.RealValue? else v.TextValue?
  }

  /** The row after the assignment `f = v` of an UPDATE statement. */
  function Set(row: Row, f: Field, v: Value): (r: Row)
    requires Fits(f, v)
    ensures Get(r, f) == v
    ensures forall g :: g != f ==> Get(r, g) == Get(row, g)
  {
    match f
    case Date => row.(date := v.s)
    case Amount => row.(amount := v.x)
    case Category => row.(category := v.s)
    case Subcategory => row.(subcategory := v.s)
    case Note => row.(note := v.s)
    case PaidBy => row.(paidBy := v.s)
  }

  /** Two rows are equal when they agree on every column. */
  lemma RowsEqual(a: Row, b: Row)
    requires forall f :: Get(a, f) == Get(b, f)
    ensures a == b
  {
    assert Get(a, Date) == Get(b, Date);
    assert Get(a, Amount) == Get(b, Amount);
    assert Get(a, Category) == Get(b, Category);
    assert Get(a, Subcategory) == Get(b, Subcategory);
    assert Get(a, Note) == Get(b, Note);
    assert Get(a, PaidBy) == Get(b, PaidBy);
  }
}
