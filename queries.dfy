/**
 The two read-only tools over the rows of the `expenses` table:
 `list_expenses` (range filter on the date text, ordered by id) and
 `summarize` (the same filter, an optional category filter, amounts summed
 per category, ordered by category).
 */
module Queries {
  import opened ExpenseTypes
  import opened TextOrder

  /** `date BETWEEN lo AND hi`, that is `date >= lo AND date <= hi` under text comparison. */
  predicate Between(date: string, lo: string, hi: string) {
    LessEq(lo, date) && LessEq(date, hi)
  }

  /**
   The rows with ids 1 .. n-1 whose date lies in [lo, hi], in ascending id
   order. Every id the store has issued is below its next id, so this is
   `SELECT ... WHERE date BETWEEN lo AND hi ORDER BY id ASC`.
   */
  function ListUpTo(rows: map<int, Row>, n: int, lo: string, hi: string): (r: seq<Expense>)
    decreases n
    ensures forall i, j :: 0 <= i < j < |r| ==> r[i].id < r[j].id
    ensures forall i :: 0 <= i < |r| ==>
      1 <= r[i].id < n && r[i].id in rows && r[i].row == rows[r[i].id] && Between(r[i].row.date, lo, hi)
    ensures forall id :: 1 <= id < n && id in rows && Between(rows[id].date, lo, hi) ==>
      Expense(id, rows[id]) in r
  {
    if n <= 1 then []
    else
      var earlier := ListUpTo(rows, n - 1, lo, hi);
      if n - 1 in rows && Between(rows[n - 1].date, lo, hi) then earlier + [Expense(n - 1, rows[n - 1])]
      else earlier
  }

  /** The listing depends only on the rows whose ids are below the bound. */
  lemma {:induction false} ListUpToFrame(a: map<int, Row>, b: map<int, Row>, n: int, lo: string, hi: string)
    requires forall k :: k < n ==> (k in a <==> k in b)
    requires forall k :: k < n && k in a ==> a[k] == b[k]
    ensures ListUpTo(a, n, lo, hi) == ListUpTo(b, n, lo, hi)
    decreases n
  {
    if n > 1 {
      ListUpToFrame(a, b, n - 1, lo, hi);
    }
  }

  /** The record `id` contributes to a listing of [lo, hi]: itself when its date is in range, else nothing. */
  function Listed(id: int, row: Row, lo: string, hi: string): seq<Expense> {
    if Between(row.date, lo, hi) then [Expense(id, row)] else []
  }

  /**
   Inserting a row under a fresh id n that is above every existing id, then
   listing, gives the old listing followed by the new record when its date
   is in range, and the old listing otherwise.
   */
  lemma ListAfterInsert(rows: map<int, Row>, n: int, row: Row, lo: string, hi: string)
    requires n >= 1
    requires forall k :: k in rows ==> k < n
    ensures ListUpTo(rows[n := row], n + 1, lo, hi) == ListUpTo(rows, n, lo, hi) + Listed(n, row, lo, hi)
  {
    ListUpToFrame(rows[n := row], rows, n, lo, hi);
  }

  /** Python truthiness of the `category` argument: `None` and `""` apply no filter. */
  predicate Active(category: Option<string>) {
    category.Some? && category.value != ""
  }

  /** Whether a record of category `c` passes the optional `AND category = ?` filter. */
  predicate Keep(filter: Option<string>, c: string) {
    !Active(filter) || c == filter.value
  }

  /** The listed records that pass the category filter, in the same order. */
  function Select(es: seq<Expense>, filter: Option<string>): (r: seq<Expense>)
    ensures forall e :: e in r <==> e in es && Keep(filter, e.row.category)
  {
    if es == [] then []
    else Select(es[..|es| - 1], filter) + (if Keep(filter, es[|es| - 1].row.category) then [es[|es| - 1]] else [])
  }

  /** `SUM(amount)` over the records of category `c` in `es`. */
  function SumFor(es: seq<Expense>, c: string): real {
    if es == [] then 0.0
    else SumFor(es[..|es| - 1], c) + (if es[|es| - 1].row.category == c then es[|es| - 1].row.amount else 0.0)
  }

  /** The categories that occur in a listing. */
  function CategoriesOf(es: seq<Expense>): set<string> {
    set e | e in es :: e.row.category
  }

  /** The categories of a summary. */
  function Categories(ts: seq<Total>): set<string> {
    set i | 0 <= i < |ts| :: ts[i].category
  }

  /** Groups appear in strictly ascending category order (so each category at most once). */
  predicate Sorted(ts: seq<Total>) {
    forall i, j :: 0 <= i < j < |ts| ==> Less(ts[i].category, ts[j].category)
  }

  /** The total recorded for category `c`, or 0 when the summary has no group for it. */
  function Lookup(ts: seq<Total>, c: string): real {
    if ts == [] then 0.0
    else if ts[0].category == c then ts[0].totalAmount
    else Lookup(ts[1..], c)
  }

  /** Adds an amount to the group of category `c`, opening the group in its sorted place if it is new. */
  function AddTo(ts: seq<Total>, c: string, amount: real): seq<Total> {
    if ts == [] then [Total(c, amount)]
    else if ts[0].category == c then [Total(c, ts[0].totalAmount + amount)] + ts[1..]
    else if Less(c, ts[0].category) then [Total(c, amount)] + ts
    else [ts[0]] + AddTo(ts[1..], c, amount)
  }

  /** `GROUP BY category ORDER BY category ASC` with `SUM(amount)` over a listing. */
  function Group(es: seq<Expense>): seq<Total> {
    if es == [] then []
    else AddTo(Group(es[..|es| - 1]), es[|es| - 1].row.category, es[|es| - 1].row.amount)
  }

  /** The summary of the records listed in `es` under the optional category filter. */
  function Summary(es: seq<Expense>, filter: Option<string>): seq<Total> {
    Group(Select(es, filter))
  }

  lemma CategoriesCons(t: Total, ts: seq<Total>)
    ensures Categories([t] + ts) == {t.category} + Categories(ts)
  {
    var l := [t] + ts;
    forall x | x in Categories(l) ensures x in {t.category} + Categories(ts) {
      var i :| 0 <= i < |l| && l[i].category == x;
      if i > 0 {
        assert ts[i - 1].category == x;
      }
    }
    forall x | x in Categories(ts) ensures x in Categories(l) {
      var i :| 0 <= i < |ts| && ts[i].category == x;
      assert l[i + 1].category == x;
    }
    assert l[0].category == t.category;
  }

  lemma {:induction false} AddToCategories(ts: seq<Total>, c: string, amount: real)
    ensures Categories(AddTo(ts, c, amount)) == Categories(ts) + {c}
    decreases |ts|
  {
    if ts == [] {
      CategoriesCons(Total(c, amount), []);
    } else {
      CategoriesCons(ts[0], ts[1..]);
      assert ts == [ts[0]] + ts[1..];
      if ts[0].category == c {
        CategoriesCons(Total(c, ts[0].totalAmount + amount), ts[1..]);
      } else if Less(c, ts[0].category) {
        CategoriesCons(Total(c, amount), ts);
      } else {
        AddToCategories(ts[1..], c, amount);
        CategoriesCons(ts[0], AddTo(ts[1..], c, amount));
      }
    }
  }

  lemma {:induction false} AddToSorted(ts: seq<Total>, c: string, amount: real)
    requires Sorted(ts)
    ensures Sorted(AddTo(ts, c, amount))
    decreases |ts|
  {
    var r := AddTo(ts, c, amount);
    if ts == [] {
    } else if ts[0].category == c {
      assert r[1..] == ts[1..];
    } else if Less(c, ts[0].category) {
      forall j | 1 <= j < |r|
        ensures Less(r[0].category, r[j].category)
      {
        if j > 1 {
          LessTransitive(c, ts[0].category, ts[j - 1].category);
        }
      }
      assert r[1..] == ts;
    } else {
      LessTotal(c, ts[0].category);
      var rest := AddTo(ts[1..], c, amount);
      AddToSorted(ts[1..], c, amount);
      AddToCategories(ts[1..], c, amount);
      forall j | 0 <= j < |rest|
        ensures Less(ts[0].category, rest[j].category)
      {
        assert rest[j].category in Categories(rest);
        if rest[j].category != c {
          var k :| 0 <= k < |ts[1..]| && ts[1..][k].category == rest[j].category;
          assert ts[k + 1] == ts[1..][k];
        }
      }
      assert r == [ts[0]] + rest;
    }
  }

  /** A category without a group has a total of 0. */
  lemma {:induction false} LookupAbsent(ts: seq<Total>, c: string)
    requires c !in Categories(ts)
    ensures Lookup(ts, c) == 0.0
    decreases |ts|
  {
    if ts != [] {
      assert ts[0].category in Categories(ts);
      assert Categories(ts[1..]) <= Categories(ts) by {
        forall x | x in Categories(ts[1..]) ensures x in Categories(ts) {
          var k :| 0 <= k < |ts[1..]| && ts[1..][k].category == x;
          assert ts[k + 1].category == x;
        }
      }
      LookupAbsent(ts[1..], c);
    }
  }

  lemma {:induction false} AddToLookup(ts: seq<Total>, c: string, amount: real, k: string)
    requires Sorted(ts)
    ensures Lookup(AddTo(ts, c, amount), k) == Lookup(ts, k) + (if k == c then amount else 0.0)
    decreases |ts|
  {
    if ts == [] {
    } else if ts[0].category == c {
      assert AddTo(ts, c, amount)[1..] == ts[1..];
    } else if Less(c, ts[0].category) {
      assert AddTo(ts, c, amount)[1..] == ts;
      if k == c {
        assert c !in Categories(ts) by {
          if c in Categories(ts) {
            var j :| 0 <= j < |ts| && ts[j].category == c;
            if j > 0 {
              LessTransitive(c, ts[0].category, ts[j].category);
            }
            LessIrreflexive(c);
          }
        }
        LookupAbsent(ts, c);
      }
    } else {
      assert AddTo(ts, c, amount)[1..] == AddTo(ts[1..], c, amount);
      AddToLookup(ts[1..], c, amount, k);
    }
  }

  lemma {:induction false} GroupSorted(es: seq<Expense>)
    ensures Sorted(Group(es))
    ensures Categories(Group(es)) == CategoriesOf(es)
    decreases |es|
  {
    if es != [] {
      var init, last := es[..|es| - 1], es[|es| - 1];
      GroupSorted(init);
      AddToSorted(Group(init), last.row.category, last.row.amount);
      AddToCategories(Group(init), last.row.category, last.row.amount);
      assert es == init + [last];
      assert CategoriesOf(es) == CategoriesOf(init) + {last.row.category};
    }
  }

  lemma {:induction false} GroupLookup(es: seq<Expense>, c: string)
    ensures Lookup(Group(es), c) == SumFor(es, c)
    decreases |es|
  {
    if es != [] {
      var init, last := es[..|es| - 1], es[|es| - 1];
      GroupLookup(init, c);
      GroupSorted(init);
      AddToLookup(Group(init), last.row.category, last.row.amount, c);
    }
  }

  /** In a sorted summary every group's total is the one `Lookup` finds for its category. */
  lemma {:induction false} SortedLookup(ts: seq<Total>, i: int)
    requires Sorted(ts) && 0 <= i < |ts|
    ensures Lookup(ts, ts[i].category) == ts[i].totalAmount
    decreases |ts|
  {
    if i > 0 {
      if ts[0].category == ts[i].category {
        LessIrreflexive(ts[0].category);
      }
      assert ts[1..][i - 1] == ts[i];
      SortedLookup(ts[1..], i - 1);
    }
  }

  /** `if category:` treats `""` as no filter at all: the summary is the same as with `None`. */
  lemma {:induction false} EmptyFilterIsNone(es: seq<Expense>)
    ensures Select(es, Some("")) == Select(es, None) == es
    ensures Summary(es, Some("")) == Summary(es, None)
  {
    if es != [] {
      EmptyFilterIsNone(es[..|es| - 1]);
      assert es[..|es| - 1] + [es[|es| - 1]] == es;
    }
  }

  /** Dropping records of other categories does not change a kept category's sum. */
  lemma {:induction false} SumForSelect(es: seq<Expense>, filter: Option<string>, c: string)
    requires Keep(filter, c)
    ensures SumFor(Select(es, filter), c) == SumFor(es, c)
  {
    if es != [] {
      var init, last := es[..|es| - 1], es[|es| - 1];
      SumForSelect(init, filter, c);
      var sel := Select(init, filter);
      if Keep(filter, last.row.category) {
        assert (sel + [last])[..|sel + [last]| - 1] == sel;
      } else {
        assert sel + [] == sel;
      }
    }
  }

  /**
   The summary of a listing: groups in strictly ascending category order,
   one per category that occurs among the selected records, each holding
   the sum of those records' amounts; with an active filter, only the
   filter's category.
   */
  lemma SummaryCorrect(es: seq<Expense>, filter: Option<string>)
    ensures Sorted(Summary(es, filter))
    ensures Categories(Summary(es, filter)) == CategoriesOf(Select(es, filter))
    ensures forall i :: 0 <= i < |Summary(es, filter)| ==>
      Summary(es, filter)[i].totalAmount == SumFor(es, Summary(es, filter)[i].category)
    ensures Active(filter) ==> forall i :: 0 <= i < |Summary(es, filter)| ==>
      Summary(es, filter)[i].category == filter.value
  {
    var sel := Select(es, filter);
    var ts := Group(sel);
    GroupSorted(sel);
    forall i | 0 <= i < |ts|
      ensures ts[i].totalAmount == SumFor(es, ts[i].category)
      ensures Active(filter) ==> ts[i].category == filter.value
    {
      SortedLookup(ts, i);
      GroupLookup(sel, ts[i].category);
      assert ts[i].category in CategoriesOf(sel);
      SumForSelect(es, filter, ts[i].category);
    }
  }
}
