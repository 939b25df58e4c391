/**
 The partial update of `edit_expense`: the parallel `fields`/`params` lists
 built from the supplied arguments, and what `UPDATE expenses SET f1 = ?,
 f2 = ?, ... WHERE id = ?` does to the matched row.
 */
module EditBuilder {
  import opened ExpenseTypes

  /** The parameter an edit binds for column `f`: present exactly when the argument is not `None`. */
  function ParamFor(p: Patch, f: Field): (r: Option<Value>)
    ensures r.Some? ==> Fits(f, r.value)
  {
    match f
    case Date => if p.date.Some? then Some(TextValue(p.date.value)) else None
    case Amount => if p.amount.Some? then Some(RealValue(p.amount.value)) else None
    case Category => if p.category.Some? then Some(TextValue(p.category.value)) else None
    case Subcategory => if p.subcategory.Some? then Some(TextValue(p.subcategory.value)) else None
    case Note => if p.note.Some? then Some(TextValue(p.note.value)) else None
    case PaidBy => if p.paidBy.Some? then Some(TextValue(p.paidBy.value)) else None
  }

  /** Every argument of the edit is `None`. */
  predicate NoFields(p: Patch) {
    p.date.None? && p.amount.None? && p.category.None? &&
    p.subcategory.None? && p.note.None? && p.paidBy.None?
  }

  /** The position of a column in the order the builder visits the arguments. */
  function Rank(f: Field): nat {
    match f
    case Date => 0
    case Amount => 1
    case Category => 2
    case Subcategory => 3
    case Note => 4
    case PaidBy => 5
  }

  /** Columns listed in strictly increasing builder order (hence each at most once). */
  predicate InOrder(fs: seq<Field>) {
    forall i, j :: 0 <= i < j < |fs| ==> Rank(fs[i]) < Rank(fs[j])
  }

  predicate Distinct(fs: seq<Field>) {
    forall i, j :: 0 <= i < j < |fs| ==> fs[i] != fs[j]
  }

  /** `params[i]` is the value the edit supplies for `fields[i]`. */
  predicate Parallel(p: Patch, fields: seq<Field>, params: seq<Value>) {
    |params| == |fields| && forall i :: 0 <= i < |fields| ==> ParamFor(p, fields[i]) == Some(params[i])
  }

  /** `fields` lists exactly the supplied columns, in builder order. */
  predicate ListsSupplied(p: Patch, fields: seq<Field>) {
    InOrder(fields) && forall f :: f in fields <==> ParamFor(p, f).Some?
  }

  /** The column the builder visits in position `k`. */
  function ColumnAt(k: nat): (f: Field)
    requires k < 6
    ensures Rank(f) == k && f == FieldOrder[k]
  {
    if k == 0 then Date
    else if k == 1 then Amount
    else if k == 2 then Category
    else if k == 3 then Subcategory
    else if k == 4 then Note
    else PaidBy
  }

  /** The columns the builder has appended after visiting the first `k` arguments. */
  function FieldsBelow(p: Patch, k: nat): seq<Field>
    requires k <= 6
  {
    if k == 0 then []
    else FieldsBelow(p, k - 1) + (if ParamFor(p, ColumnAt(k - 1)).Some? then [ColumnAt(k - 1)] else [])
  }

  /** The parameters the builder has appended after visiting the first `k` arguments. */
  function ParamsBelow(p: Patch, k: nat): seq<Value>
    requires k <= 6
  {
    if k == 0 then []
    else ParamsBelow(p, k - 1) + (if ParamFor(p, ColumnAt(k - 1)).Some? then [ParamFor(p, ColumnAt(k - 1)).value] else [])
  }

  /**
   After visiting the first `k` arguments the builder has listed exactly the
   supplied columns among them, in order, with their values in parallel.
   */
  lemma {:induction false} BuiltBelow(p: Patch, k: nat)
    requires k <= 6
    ensures InOrder(FieldsBelow(p, k)) && Parallel(p, FieldsBelow(p, k), ParamsBelow(p, k))
    ensures forall g :: g in FieldsBelow(p, k) <==> Rank(g) < k && ParamFor(p, g).Some?
  {
    if k > 0 {
      BuiltBelow(p, k - 1);
      var f := ColumnAt(k - 1);
      forall g ensures g in FieldsBelow(p, k) <==> Rank(g) < k && ParamFor(p, g).Some? {
        if Rank(g) == k - 1 {
          assert g == f;
        }
      }
    }
  }

  /**
   One `if <arg> is not None: fields.append(...); params.append(<arg>)`
   block of `edit_expense`: append column `f` and its value exactly when the
   argument is supplied, whatever the value (`0` and `""` included).
   */
  method AppendIfSupplied(p: Patch, fields: seq<Field>, params: seq<Value>, f: Field)
    returns (fields': seq<Field>, params': seq<Value>)
    requires fields == FieldsBelow(p, Rank(f)) && params == ParamsBelow(p, Rank(f))
    ensures fields' == FieldsBelow(p, Rank(f) + 1) && params' == ParamsBelow(p, Rank(f) + 1)
  {
    fields', params' := fields, params;
    var arg := ParamFor(p, f);
    if arg.Some? {
      fields', params' := fields + [f], params + [arg.value];
    }
  }

  /**
   The `fields`/`params` builder of `edit_expense`: the six conditional
   appends in source order. The columns come out at most once each, in the
   order date, amount, category, subcategory, note, paid_by, exactly for
   the arguments that are not `None`, with `params[i]` the value supplied
   for `fields[i]`; both lists are empty exactly when every argument is `None`.
   */
  method BuildUpdate(p: Patch) returns (fields: seq<Field>, params: seq<Value>)
    ensures ListsSupplied(p, fields)
    ensures Parallel(p, fields, params)
    ensures forall i :: 0 <= i < |fields| ==> Fits(fields[i], params[i])
    ensures fields == [] <==> NoFields(p)
  {
    fields, params := [], [];
    fields, params := AppendIfSupplied(p, fields, params, Date);
    fields, params := AppendIfSupplied(p, fields, params, Amount);
    fields, params := AppendIfSupplied(p, fields, params, Category);
    fields, params := AppendIfSupplied(p, fields, params, Subcategory);
    fields, params := AppendIfSupplied(p, fields, params, Note);
    fields, params := AppendIfSupplied(p, fields, params, PaidBy);
    BuiltBelow(p, Rank(PaidBy) + 1);
    NoFieldsIff(p);
    assert forall g :: Rank(g) < Rank(PaidBy) + 1;
    if fields != [] {
      assert fields[0] in fields;
    }
  }

  /** Every argument is `None` exactly when no column has a parameter. */
  lemma NoFieldsIff(p: Patch)
    ensures NoFields(p) <==> forall g :: ParamFor(p, g).None?
  {
    if !NoFields(p) {
      var g :=
        if p.date.Some? then Date else if p.amount.Some? then Amount
        else if p.category.Some? then Category else if p.subcategory.Some? then Subcategory
        else if p.note.Some? then Note else PaidBy;
      assert ParamFor(p, g).Some?;
    }
  }

  /** The assignments `fs[i] = vs[i]` of an UPDATE's SET list, applied left to right. */
  function SetColumns(row: Row, fs: seq<Field>, vs: seq<Value>): Row
    requires |fs| == |vs|
    requires forall i :: 0 <= i < |fs| ==> Fits(fs[i], vs[i])
    decreases |fs|
  {
    if fs == [] then row
    else SetColumns(Set(row, fs[0], vs[0]), fs[1..], vs[1..])
  }

  /** The row with every supplied argument written over its column and every other column kept. */
  function Overwrite(row: Row, p: Patch): (r: Row)
    ensures forall f :: Get(r, f) == ParamFor(p, f).GetOr(Get(row, f))
  {
    Row(p.date.GetOr(row.date), p.amount.GetOr(row.amount), p.category.GetOr(row.category),
        p.subcategory.GetOr(row.subcategory), p.note.GetOr(row.note), p.paidBy.GetOr(row.paidBy))
  }

  /** With distinct columns, each listed column ends up with its own value and the others are untouched. */
  lemma {:induction false} SetColumnsGet(row: Row, fs: seq<Field>, vs: seq<Value>)
    requires |fs| == |vs| && Distinct(fs)
    requires forall i :: 0 <= i < |fs| ==> Fits(fs[i], vs[i])
    ensures forall i :: 0 <= i < |fs| ==> Get(SetColumns(row, fs, vs), fs[i]) == vs[i]
    ensures forall f :: f !in fs ==> Get(SetColumns(row, fs, vs), f) == Get(row, f)
    decreases |fs|
  {
    if fs != [] {
      var next := Set(row, fs[0], vs[0]);
      SetColumnsGet(next, fs[1..], vs[1..]);
      forall i | 0 <= i < |fs|
        ensures Get(SetColumns(row, fs, vs), fs[i]) == vs[i]
      {
        if i == 0 {
          assert fs[0] !in fs[1..];
        } else {
          assert fs[1..][i - 1] == fs[i];
        }
      }
    }
  }

  /**
   Executing the UPDATE built from an edit's arguments writes exactly the
   supplied arguments over the row: the result is `Overwrite(row, p)`.
   */
  lemma UpdateOverwrites(row: Row, p: Patch, fields: seq<Field>, params: seq<Value>)
    requires ListsSupplied(p, fields) && Parallel(p, fields, params)
    ensures forall i :: 0 <= i < |fields| ==> Fits(fields[i], params[i])
    ensures SetColumns(row, fields, params) == Overwrite(row, p)
  {
    SetColumnsGet(row, fields, params);
    var updated := SetColumns(row, fields, params);
    forall f ensures Get(updated, f) == Get(Overwrite(row, p), f) {
      if f in fields {
        var i :| 0 <= i < |fields| && fields[i] == f;
      }
    }
    RowsEqual(updated, Overwrite(row, p));
  }
}
