/** Audit-log records: the entry `logHistory` writes (app.js:300-305) and the
    free-text filter `renderHistoryTable` applies to the rows it reads back
    (app.js:328-333). */
module History {
  import opened Wrappers
  import opened Text
  import Sequences

  /** What a handler asks `logHistory` to append (`actor` is the document's
      `by` field, a reserved word in Dafny); the server timestamp is added by
      the store and is not part of the model. */
  datatype HistoryEntry = HistoryEntry(action: string, name: string, change: string, actor: string)

  /** A history document as the snapshot delivers it: any field may be missing. */
  datatype HistoryRow = HistoryRow(
    id: string,
    action: Option<string>,
    name: Option<string>,
    change: Option<string>,
    actor: Option<string>)

  /** The row the store holds once an entry has been appended under `id`. */
  function Stored(id: string, e: HistoryEntry): HistoryRow
  {
    HistoryRow(id, Some(e.action), Some(e.name), Some(e.change), Some(e.actor))
  }

  /** The template `${a} ${b} ${c} ${d}`. */
  function Join(a: string, b: string, c: string, d: string): string
  {
    a + " " + b + " " + c + " " + d
  }

  /** The text searched for a row: its four fields joined by single spaces,
      missing fields read as "", and lower-cased. */
  function SearchText(r: HistoryRow): string
  {
    Lower(Join(OrEmpty(r.action), OrEmpty(r.name), OrEmpty(r.change), OrEmpty(r.actor)))
  }

  predicate RowMatches(r: HistoryRow, searchTerm: string)
  {
    Contains(SearchText(r), Lower(searchTerm))
  }

  /** The rows shown in the history table, in the order the store delivered them. */
  function FilterHistory(rows: seq<HistoryRow>, searchTerm: string): seq<HistoryRow>
  {
    Sequences.Filter(rows, r => RowMatches(r, searchTerm))
  }

  /** The shown rows are an order-preserving subsequence of the delivered
      ones, a row is shown exactly when its joined lower-cased text includes
      the lower-cased term, and an empty term shows every row. */
  lemma HistoryFilterSpec(rows: seq<HistoryRow>, searchTerm: string)
    ensures Sequences.IsSubsequence(FilterHistory(rows, searchTerm), rows)
    ensures forall r :: r in FilterHistory(rows, searchTerm) <==>
      r in rows
      && Contains(Lower(Join(OrEmpty(r.action), OrEmpty(r.name), OrEmpty(r.change), OrEmpty(r.actor))),
                  Lower(searchTerm))
    ensures searchTerm == "" ==> FilterHistory(rows, searchTerm) == rows
    ensures forall r :: multiset(FilterHistory(rows, searchTerm))[r]
                     == (if RowMatches(r, searchTerm) then multiset(rows)[r] else 0)
  {
    var keep := r => RowMatches(r, searchTerm);
    Sequences.FilterIsSubsequence(rows, keep);
    forall r
      ensures multiset(FilterHistory(rows, searchTerm))[r] == if keep(r) then multiset(rows)[r] else 0
    {
      Sequences.FilterCount(rows, keep, r);
    }
    forall r
      ensures r in FilterHistory(rows, searchTerm) <==> r in rows && keep(r)
    {
      Sequences.FilterMembership(rows, keep, r);
    }
    if searchTerm == "" {
      forall i | 0 <= i < |rows|
        ensures keep(rows[i])
      {
        ContainsEmpty(SearchText(rows[i]));
      }
      Sequences.FilterKeepsAll(rows, keep);
    }
  }

  /** Lower-casing the joined text lower-cases each field. */
  lemma LowerJoin(a: string, b: string, c: string, d: string)
    ensures Lower(Join(a, b, c, d)) == Join(Lower(a), Lower(b), Lower(c), Lower(d))
  {
    assert Lower(" ") == " ";
    LowerConcat(a + " " + b + " " + c + " ", d);
    LowerConcat(a + " " + b + " " + c, " ");
    LowerConcat(a + " " + b + " ", c);
    LowerConcat(a + " " + b, " ");
    LowerConcat(a + " ", b);
    LowerConcat(a, " ");
  }

  /** The joined text includes whatever one of its fields includes. */
  lemma ContainsInJoin(a: string, b: string, c: string, d: string, t: string)
    requires Contains(a, t) || Contains(b, t) || Contains(c, t) || Contains(d, t)
    ensures Contains(Join(a, b, c, d), t)
  {
    var j := Join(a, b, c, d);
    if Contains(a, t) {
      ContainsInfix([], a, " " + b + " " + c + " " + d, t);
      assert [] + a + (" " + b + " " + c + " " + d) == j;
    } else if Contains(b, t) {
      ContainsInfix(a + " ", b, " " + c + " " + d, t);
      assert (a + " ") + b + (" " + c + " " + d) == j;
    } else if Contains(c, t) {
      ContainsInfix(a + " " + b + " ", c, " " + d, t);
      assert (a + " " + b + " ") + c + (" " + d) == j;
    } else {
      ContainsInfix(a + " " + b + " " + c + " ", d, [], t);
      assert (a + " " + b + " " + c + " ") + d + [] == j;
    }
  }

  /** A term found, ignoring case, in any one field finds the row: searching a
      product name lists every record about that product. */
  lemma FieldMatchFindsRow(r: HistoryRow, searchTerm: string)
    requires Contains(Lower(OrEmpty(r.action)), Lower(searchTerm))
          || Contains(Lower(OrEmpty(r.name)), Lower(searchTerm))
          || Contains(Lower(OrEmpty(r.change)), Lower(searchTerm))
          || Contains(Lower(OrEmpty(r.actor)), Lower(searchTerm))
    ensures RowMatches(r, searchTerm)
  {
    var a, n, c, b := OrEmpty(r.action), OrEmpty(r.name), OrEmpty(r.change), OrEmpty(r.actor);
    LowerJoin(a, n, c, b);
    ContainsInJoin(Lower(a), Lower(n), Lower(c), Lower(b), Lower(searchTerm));
  }

  /** Once an entry is logged, searching for its product name, or for the
      user who made the change, lists its record. */
  lemma StoredFoundByNameOrActor(id: string, e: HistoryEntry)
    ensures RowMatches(Stored(id, e), e.name)
    ensures RowMatches(Stored(id, e), e.actor)
  {
    assert IsPrefix(Lower(e.name), Lower(e.name));
    FieldMatchFindsRow(Stored(id, e), e.name);
    assert IsPrefix(Lower(e.actor), Lower(e.actor));
    FieldMatchFindsRow(Stored(id, e), e.actor);
  }
}
