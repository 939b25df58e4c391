# Expense tracker store, modelled in Dafny

`main_3.py` is an expense tracker exposed as remote-callable tools. Each
tool runs one parameterised SQL statement against a single SQLite table,
`expenses(id, date, amount, category, subcategory, note, paid_by)`. This
project swaps that table for an in-memory store and proves what each tool
promises.

The store is a class, `Store.ExpenseStore`. It has four fields:

- `table` holds the column names, or `None` before `init_db` has created the table.
- `rows` maps each id to its record.
- `nextId` is the `AUTOINCREMENT` counter: one more than the largest id ever handed out.
- `Issued` is ghost. It holds every id ever assigned, so the proofs can state that ids are never reused.

The tools change this state in place, as the SQL statements do. The two
read-only tools (`list_expenses`, `summarize`) are functions over the
store's map.

Modules:

- `ExpenseTypes` (types.dfy): records, columns, column values, the optional edit arguments (`Patch`), and the tool responses. The responses are `{"status": "ok", ...}` or `{"status": "error", "message": ...}`.
- `TextOrder` (text_order.dfy): the order SQLite compares TEXT by under its default BINARY collation. That is the lexicographic order on code points. `BETWEEN` and `ORDER BY category` both use it.
- `Queries` (queries.dfy): the `WHERE date BETWEEN ? AND ? ORDER BY id` scan, and the filter, group, sum and sort of `summarize`.
- `EditBuilder` (edit_builder.dfy): how `edit_expense` builds its `fields`/`params` lists, and what the resulting `UPDATE ... SET` does to a row.
- `Schema` (schema.dfy): what `CREATE TABLE IF NOT EXISTS` and the swallowed `ALTER TABLE ADD COLUMN paid_by` do to the column list. SQLite compares column names ignoring ASCII case.
- `Store` (store.dfy): the class and the tools.
- `Scenarios` (scenarios.dfy): sequences of tool calls (delete twice; add, delete, add; an edit with no arguments; `init_db` twice; a first insert on a fresh database, then a listing and a summary).

Amounts are `real`, so sums are exact. Python's untyped `edit_expense`
arguments take the types of the matching `add_expense` parameters, with
`None` written as `Option.None`.

Two modelling choices follow the code closely:

- `category` may be any string, the empty one included. main_3.py:40 takes a plain `str`, and the table only demands `NOT NULL` (main_3.py:21).
- Every `if <argument> is not None` block of `edit_expense` is one call of `EditBuilder.AppendIfSupplied`. `BuildUpdate` makes the six calls in the source's order.

## Model

| member | source | states |
|---|---|---|
| TextOrder.Less | main_3.py:59 | SQLite's BINARY comparison of TEXT: a proper prefix sorts first, otherwise the first differing character decides |
| TextOrder.LessEq | main_3.py:59 | The `<=` inside `BETWEEN`: the first text does not sort strictly after the second |
| TextOrder.LessIrreflexive | main_3.py:59 | No date or category text sorts strictly before itself |
| TextOrder.LessTransitive | main_3.py:78 | The TEXT order used by `ORDER BY category` is transitive |
| TextOrder.LessTotal | main_3.py:78 | Any two different texts are ordered one way or the other, so the category order is total |
| TextOrder.LessEqIff | main_3.py:59 | The `<=` that `BETWEEN` uses holds exactly when the texts are equal or the first sorts strictly before the second |
| TextOrder.LessAt | main_3.py:59 | Texts that agree up to position k are ordered by their character at k, in one direction only |
| Queries.ListUpTo | main_3.py:55-66 | The scan of ids below n returns strictly ascending ids. Each returned record is the stored row of an id in range whose date lies in [lo, hi]. Every such row is returned |
| Queries.Between | main_3.py:59 | `date BETWEEN lo AND hi`: `lo <= date` and `date <= hi` in text order, both ends inclusive |
| Queries.ListUpToFrame | main_3.py:55-66 | The scan of ids below n depends only on the rows under those ids |
| Queries.ListAfterInsert | main_3.py:43-48 | Inserting a row under a fresh id n adds exactly that record to the end of every listing whose range holds its date. All other listings are unchanged |
| Queries.Active | main_3.py:75 | The truthiness test `if category:`: a filter applies only when `category` is a non-empty string, so `None` and `""` both mean no filter |
| Queries.Keep | main_3.py:75-76 | A record of category c passes the summary filter when no filter applies, or when `category = ?` holds for c |
| Queries.Select | main_3.py:75-77 | The `AND category = ?` filter keeps exactly the records of the filtered category. It keeps all records when the filter is `None` or `""` |
| Queries.EmptyFilterIsNone | main_3.py:75 | By Python truthiness, an empty category leaves the selection and the summary the same as no category |
| Queries.SumForSelect | main_3.py:73-77 | The filter does not change the total of a category it keeps |
| Queries.SumFor | main_3.py:73 | `SUM(amount)` over the records of one category: the sum of their amounts, 0 for none |
| Queries.AddTo | main_3.py:73-78 | Adds one record's amount to its category's group, opening the group in its sorted place if it is new |
| Queries.Group | main_3.py:73-78 | `GROUP BY category ORDER BY category ASC` with `SUM(amount)`: every listed record added to its group in turn |
| Queries.Summary | main_3.py:73-78 | The grouping of the records that pass the category filter |
| Queries.AddToCategories | main_3.py:73-78 | Adding an amount to a category's group adds that category to the set of groups and no other |
| Queries.AddToSorted | main_3.py:78 | Adding an amount keeps the groups in strictly ascending category order |
| Queries.AddToLookup | main_3.py:73 | Adding an amount raises that category's `SUM(amount)` by exactly that amount and leaves every other category's total unchanged |
| Queries.LookupAbsent | main_3.py:73 | A category without a group has a total of 0 |
| Queries.GroupSorted | main_3.py:78 | `GROUP BY category ORDER BY category ASC` gives strictly ascending categories, one group for each category among the records |
| Queries.GroupLookup | main_3.py:73 | Each category's group total is the sum of the amounts of that category's records |
| Queries.SortedLookup | main_3.py:78 | In a category-sorted summary, looking up an entry's category finds that entry's total |
| Queries.SummaryCorrect | main_3.py:70-82 | The summary is in strictly ascending category order. It has one entry per category of a kept record. Each total equals the category's sum over the unfiltered listing. With a non-empty filter, every entry is of that category |
| EditBuilder.ParamFor | main_3.py:102-119 | An edit binds a parameter for a column exactly when that argument is not `None`. The value has the column's type |
| EditBuilder.FieldsBelow | main_3.py:99-119 | The `fields` list after the first k `if` blocks: the supplied columns among them, in source order |
| EditBuilder.ParamsBelow | main_3.py:99-119 | The `params` list after the first k `if` blocks: the supplied values among them, in source order |
| EditBuilder.BuiltBelow | main_3.py:99-119 | After the first k `if` blocks, `fields` lists exactly the supplied columns among the first k, in source order. `params[i]` is the value for `fields[i]` |
| EditBuilder.AppendIfSupplied | main_3.py:102-104 | One `if <arg> is not None` block extends the lists exactly as the next step of the builder does, whatever the value (`0` and `""` included) |
| EditBuilder.BuildUpdate | main_3.py:99-121 | `fields` lists each supplied column once, in the order date, amount, category, subcategory, note, paid_by. A column is listed exactly when its argument is not `None`. `params` runs in parallel. `fields` is empty exactly when every argument is `None` |
| EditBuilder.NoFieldsIff | main_3.py:121 | Every argument is `None` exactly when no column has a parameter to bind |
| ExpenseTypes.Set | main_3.py:125 | One `col = ?` assignment: the column gets the value and every other column is unchanged |
| EditBuilder.SetColumns | main_3.py:125 | `SET f1 = ?, f2 = ?, ...`: the assignments applied left to right |
| EditBuilder.Overwrite | main_3.py:96-125 | The edited row holds each supplied argument in its column and keeps every other column |
| EditBuilder.SetColumnsGet | main_3.py:125 | With distinct columns, `SET f1 = ?, f2 = ?, ...` gives each listed column its parameter and leaves the other columns alone |
| EditBuilder.UpdateOverwrites | main_3.py:124-128 | The UPDATE built from an edit's arguments writes exactly the supplied arguments over the row |
| Schema.SameName | main_3.py:29-30 | SQLite's duplicate-column test: two column names are the same when they agree after ASCII lower-casing |
| Schema.HasColumn | main_3.py:29-30 | The table already has a column that `ADD COLUMN` of this name would duplicate |
| Schema.CountZero | main_3.py:29-30 | A table has zero columns of a name exactly when `ADD COLUMN` of that name would not fail as a duplicate |
| Schema.CountOne | main_3.py:29-30 | In a table without duplicate names, a column that is present occurs exactly once |
| Schema.AddColumnDistinct | main_3.py:29-31 | `ADD COLUMN`, whether it fails as a duplicate or succeeds, leaves the table with the column and without duplicate names |
| Schema.TableColumnsDistinct | main_3.py:17-25 | The columns of `CREATE TABLE` have pairwise different names |
| Schema.CreateIfAbsent | main_3.py:16-26 | `CREATE TABLE IF NOT EXISTS`: an existing table is kept as it is, otherwise the seven declared columns |
| Schema.AddColumn | main_3.py:28-31 | `ADD COLUMN paid_by` with its failure swallowed: a present name leaves the columns alone, otherwise the name is appended |
| Schema.InitColumns | main_3.py:14-32 | The columns after `init_db`: `CREATE TABLE IF NOT EXISTS`, then the swallowed `ADD COLUMN paid_by` |
| Schema.InitColumnsCorrect | main_3.py:14-32 | After `init_db` the table has no duplicate names and `paid_by` exactly once. A new table has the seven declared columns. An existing table keeps its columns in place. `paid_by` is the only column appended, and only when it was missing, so a table that has it comes back unchanged |
| Schema.InitColumnsIdempotent | main_3.py:14-36 | Running `init_db` again on its own result changes nothing |
| Store.ExpenseStore.constructor | main_3.py:8 | A database file without the table: no rows, and the id counter at 1 |
| Store.ExpenseStore.AlterTableAddColumn | main_3.py:29 | `ALTER TABLE ADD COLUMN` fails with "duplicate column name" and changes nothing when the name is present. Otherwise it appends the column. No other failure is modelled |
| Store.ExpenseStore.InitDb | main_3.py:14-32 | The table afterwards is `InitColumns` of the table before. The duplicate-column failure is swallowed; it is the only `ALTER TABLE` failure modelled. `paid_by` occurs once. Another run would change nothing |
| Store.ExpenseStore.AddExpense | main_3.py:40-48 | Returns ok with the counter's id. The id is larger than every id ever issued. The counter advances by one. Exactly one record with the given fields (defaults `""`) is added, and the others are unchanged. Every listing gains the record at its end if the date is in range |
| Store.ExpenseStore.ListExpenses | main_3.py:52-66 | Returns exactly the stored records whose date lies in [start, end] in text order, in strictly ascending id order. Returns an empty sequence, not an error, when none match |
| Store.ExpenseStore.Summarize | main_3.py:70-82 | One entry per category of an in-range record, restricted to `category` when it is a non-empty string. Entries are in strictly ascending category order. Each total equals the sum of the listed amounts of that category |
| Store.ExpenseStore.DeleteExpense | main_3.py:86-93 | A present id is removed alone and reported as deleted. An absent id gives "Expense not found" and changes nothing |
| Store.ExpenseStore.ExecuteUpdate | main_3.py:124-128 | The last parameter is the id. A matching row gets its listed columns rewritten and reports rowcount 1. Otherwise the rowcount is 0 and nothing changes |
| Store.ExpenseStore.EditExpense | main_3.py:96-132 | With no argument supplied: "No fields to update" and the store untouched. Otherwise a present id gets exactly its supplied columns overwritten, everything else is unchanged, and it is reported as updated. An absent id gives "Expense not found" and changes nothing |
| Scenarios.DeleteTwice | main_3.py:86-93 | Deleting a present id twice gives ok, then "Expense not found". Only that record is gone |
| Scenarios.AddDeleteAdd | main_3.py:18 | After an insert and its delete, the next insert gets a strictly larger id. The deleted id stays absent |
| Scenarios.EditNothing | main_3.py:121-122 | An edit without arguments fails with "No fields to update" and changes no record |
| Scenarios.InitDbTwice | main_3.py:14-36 | Two runs of `init_db` leave one `paid_by` column and the same table as one run |
| Scenarios.MarchRange | main_3.py:59 | "2024-03-15" lies between "2024-03-01" and "2024-03-31" |
| Scenarios.SummaryOfOne | main_3.py:70-82 | A single listed record summarised with `""` as category gives one group: that record's category and amount |
| Scenarios.FirstExpense | main_3.py:40-48 | On a fresh database the first insert gets id 1 and stores its fields with empty defaults |
| Scenarios.ListMonth | main_3.py:52-66 | With that one record stored, listing its month returns exactly that record |
| Scenarios.OnlyRecord | main_3.py:60 | An id-ascending listing that holds x and nothing but x is exactly [x] |
| Scenarios.SummarizeMonth | main_3.py:70-82 | With that one record stored, summarising its month with category `""` gives one group holding its amount |

## Left out

- The FastMCP server, the tool and resource decorators and the HTTP transport (main_3.py:11, 39, 135, 143-145): these are framework dispatch and networking.
- aiosqlite connections, `async with`, `await`, `commit` and `asyncio.run`. Each tool is one atomic state change; concurrent writers and interleaving are not modelled.
- The `categories` resource (main_3.py:135-140): it is a plain file read with no logic.
- `DB_PATH` and `CATEGORIES_PATH` (main_3.py:8-9): OS path handling. The database is the store object itself.
- Store.ExpenseStore.AddExpense: does not model SQLite's "database or disk is full" error once the `AUTOINCREMENT` counter passes 2^63-1, because ids are unbounded integers.
- Store.ExpenseStore.Summarize: amounts are exact reals, so the totals are exact sums rather than IEEE double sums. The order in which SQLite adds the amounts is not modelled.
- SQL text: `fields` is a sequence of column identifiers instead of `"col = ?"` strings, and the `', '.join` and the SQL parser are not modelled.
- The model does not track whether each row holds a value for every column. A table created by an earlier schema is modelled through its column list alone. Its pre-existing rows are not modelled, nor is `paid_by` defaulting to `''` for them.
- Calling a tool before `init_db` has created the table (SQLite's "no such table" error) is not modelled. The record tools do not look at `table`.
- Store.ExpenseStore.InitDb: main_3.py:28-31 swallows every `aiosqlite.OperationalError` from the `ALTER TABLE`, not only the duplicate-column one. A locked, read-only or full database there is also ignored, and `init_db` then carries on without adding `paid_by`. The model covers only the duplicate-column outcome.
- Other store failures (disk, I/O, locking in the other statements) are not modelled: there they propagate uncaught.
- Store.ExpenseStore.DeleteExpense: an `expense_id` outside [-2^63, 2^63-1] cannot be bound as an SQLite INTEGER. main_3.py:89 then raises `OverflowError`. The model's id is an unbounded integer, and for such an id it reports "Expense not found" with the store unchanged.
- Store.ExpenseStore.EditExpense: with at least one field supplied, an `expense_id` outside [-2^63, 2^63-1] makes main_3.py:128 raise `OverflowError`. The model reports "Expense not found" with the store unchanged. With no field supplied, the source returns at main_3.py:122 before binding the id, as the model does.
- Python's dynamic argument types are not modelled: each argument takes the type of its column, except that ids are unbounded integers (see the two lines above). A non-integer `expense_id`, or text bound to `amount`, is not modelled.

