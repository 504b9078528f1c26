/** The part of a pandas DataFrame the preprocessing code touches: rows with an
    index label and named cells, a set of column names, column assignment
    (`df[name] = values`), column removal (`drop(columns=..., inplace=True)`)
    and row selection by a per-row test (`df.loc[mask]`, `df.drop(label)`). */
module Tables {
  import opened Strings

  /** One cell: text, an integer count, a flag, a number, or a missing value (NaN). */
  datatype Cell = Text(s: string) | Int(n: int) | Bool(b: bool) | Real(x: real) | Missing

  /** One row: its index label (`index`) and its cells by column name. */
  datatype Row = Row(index: int, cells: map<string, Cell>)

  /** The text in column `name` of `r`, or "" when the cell holds no text. */
  function TextAt(r: Row, name: string): string
  {
    if name in r.cells && r.cells[name].Text? then r.cells[name].s else ""
  }

  /** Column `name` holds text in every row. */
  predicate HasText(rows: seq<Row>, name: string)
  {
    forall i :: 0 <= i < |rows| ==> name in rows[i].cells && rows[i].cells[name].Text?
  }

  /** Every row has exactly the given columns. */
  predicate Conforms(columns: set<string>, rows: seq<Row>)
  {
    forall r :: r in rows ==> r.cells.Keys == columns
  }

  /** The rows passing `keep`, in their original order and with their index
      labels (how often each is kept is `WhereCounts`). */
  function Where(rows: seq<Row>, keep: Row -> bool): (r: seq<Row>)
    ensures forall x :: x in r <==> x in rows && keep(x)
    ensures IsSubsequence(r, rows)
    ensures |r| <= |rows|
  {
    if rows == [] then []
    else
      assert rows == [rows[0]] + rows[1..];
      if keep(rows[0]) then [rows[0]] + Where(rows[1..], keep) else Where(rows[1..], keep)
  }

  /** `Where` keeps each passing row as often as it occurs in `rows`, and no
      other row. */
  lemma {:induction false} WhereCounts(rows: seq<Row>, keep: Row -> bool)
    ensures forall x :: multiset(Where(rows, keep))[x] == if keep(x) then multiset(rows)[x] else 0
  {
    if rows != [] {
      var rest := Where(rows[1..], keep);
      WhereCounts(rows[1..], keep);
      WhereStep(rows, keep);
      assert multiset(rows) == multiset{rows[0]} + multiset(rows[1..]) by {
        assert rows == [rows[0]] + rows[1..];
      }
      if keep(rows[0]) {
        assert multiset(Where(rows, keep)) == multiset{rows[0]} + multiset(rest) by {
          assert Where(rows, keep) == [rows[0]] + rest;
        }
      }
    }
  }

  /** Filtering twice is filtering once by both tests. */
  lemma {:induction false} WhereTwice(rows: seq<Row>, p: Row -> bool, q: Row -> bool, both: Row -> bool)
    requires forall r :: both(r) == (p(r) && q(r))
    ensures Where(Where(rows, p), q) == Where(rows, both)
  {
    if rows != [] {
      WhereTwice(rows[1..], p, q, both);
      if p(rows[0]) {
        assert ([rows[0]] + Where(rows[1..], p))[1..] == Where(rows[1..], p);
      }
    }
  }

  /** Filtering after a row-wise map is mapping after the filter that tests
      what the map will produce. */
  lemma {:induction false} WhereAfterMap(rows: seq<Row>, f: Row -> Row, p: Row -> bool, pf: Row -> bool)
    requires forall r :: pf(r) == p(f(r))
    ensures Where(MapRows(rows, f), p) == MapRows(Where(rows, pf), f)
  {
    if rows != [] {
      WhereAfterMap(rows[1..], f, p, pf);
      var mr := MapRows(rows, f);
      MapRowsStep(rows, f);
      WhereStep(mr, p);
      WhereStep(rows, pf);
      var rest := Where(rows[1..], pf);
      if pf(rows[0]) {
        MapRowsStep([rows[0]] + rest, f);
        assert ([rows[0]] + rest)[1..] == rest;
      }
    }
  }

  /** One step of `Where`: the first row is kept or left out, then the rest. */
  lemma WhereStep(rows: seq<Row>, keep: Row -> bool)
    requires rows != []
    ensures Where(rows, keep) == if keep(rows[0]) then [rows[0]] + Where(rows[1..], keep) else Where(rows[1..], keep)
  {
  }

  /** One step of `MapRows`: the first row mapped, then the rest. */
  lemma MapRowsStep(rows: seq<Row>, f: Row -> Row)
    requires rows != []
    ensures MapRows(rows, f) == [f(rows[0])] + MapRows(rows[1..], f)
  {
    assert MapRows(rows, f)[1..] == MapRows(rows[1..], f);
  }

  function MapRows(rows: seq<Row>, f: Row -> Row): (r: seq<Row>)
    ensures |r| == |rows|
  {
    seq(|rows|, i requires 0 <= i < |rows| => f(rows[i]))
  }

  /** The same after two filters, which together test `both`. */
  lemma WhereTwiceFindsLabel(rows: seq<Row>, p: Row -> bool, q: Row -> bool, both: Row -> bool, f: Row -> Row, key: int)
    requires forall r :: both(r) == (p(r) && q(r))
    requires forall r :: f(r).index == r.index
    ensures var m := MapRows(Where(Where(rows, p), q), f);
      (exists j :: 0 <= j < |m| && m[j].index == key)
        <==> (exists i :: 0 <= i < |rows| && both(rows[i]) && rows[i].index == key)
  {
    WhereTwice(rows, p, q, both);
    WhereFindsLabel(rows, both, f, key);
  }

  /** A row-wise map that keeps index labels finds a label among the filtered
      rows exactly when some row passing the filter carries it. */
  lemma WhereFindsLabel(rows: seq<Row>, keep: Row -> bool, f: Row -> Row, key: int)
    requires forall r :: f(r).index == r.index
    ensures var m := MapRows(Where(rows, keep), f);
      (exists j :: 0 <= j < |m| && m[j].index == key)
        <==> (exists i :: 0 <= i < |rows| && keep(rows[i]) && rows[i].index == key)
  {
    var w := Where(rows, keep);
    if j :| 0 <= j < |MapRows(w, f)| && MapRows(w, f)[j].index == key {
      assert MapRows(w, f)[j] == f(w[j]);
      assert w[j] in w;
      var i :| 0 <= i < |rows| && rows[i] == w[j];
      assert keep(rows[i]) && rows[i].index == key;
    }
    if i :| 0 <= i < |rows| && keep(rows[i]) && rows[i].index == key {
      LabelSurvives(rows, keep, f, i);
    }
  }

  lemma LabelSurvives(rows: seq<Row>, keep: Row -> bool, f: Row -> Row, i: int)
    requires forall r :: f(r).index == r.index
    requires 0 <= i < |rows| && keep(rows[i])
    ensures exists j :: 0 <= j < |Where(rows, keep)| && MapRows(Where(rows, keep), f)[j].index == rows[i].index
  {
    var w := Where(rows, keep);
    assert rows[i] in rows;
    assert rows[i] in w;
    var j :| 0 <= j < |w| && w[j] == rows[i];
    assert MapRows(w, f)[j] == f(rows[i]);
  }

  /** Rows after `df[name] = values`. */
  function AssignCells(rows: seq<Row>, name: string, values: seq<Cell>): (r: seq<Row>)
    requires |values| == |rows|
    ensures |r| == |rows|
  {
    seq(|rows|, i requires 0 <= i < |rows| => Row(rows[i].index, rows[i].cells[name := values[i]]))
  }

  /** Rows after `df.drop(columns=name)`. */
  function DropCells(rows: seq<Row>, name: string): (r: seq<Row>)
    ensures |r| == |rows|
  {
    seq(|rows|, i requires 0 <= i < |rows| => Row(rows[i].index, rows[i].cells - {name}))
  }

  /** The rows `base` with the cells `added[i]` added to row `i`. */
  function Extended(base: seq<Row>, added: seq<map<string, Cell>>): (r: seq<Row>)
    requires |added| == |base|
    ensures |r| == |base|
  {
    seq(|base|, i requires 0 <= i < |base| => Row(base[i].index, base[i].cells + added[i]))
  }

  /** Assigning a column to extended rows extends them by one more cell. */
  lemma AssignExtended(base: seq<Row>, added: seq<map<string, Cell>>, name: string, values: seq<Cell>)
    requires |added| == |base| == |values|
    ensures AssignCells(Extended(base, added), name, values)
         == Extended(base, seq(|base|, i requires 0 <= i < |base| => added[i][name := values[i]]))
  {
    var lhs := AssignCells(Extended(base, added), name, values);
    var rhs := Extended(base, seq(|base|, i requires 0 <= i < |base| => added[i][name := values[i]]));
    forall i | 0 <= i < |base| ensures lhs[i] == rhs[i] {
      assert lhs[i].cells == rhs[i].cells;
    }
  }

  /** Assigning a column twice leaves the second values. */
  lemma AssignTwice(rows: seq<Row>, name: string, first: seq<Cell>, second: seq<Cell>)
    requires |first| == |second| == |rows|
    ensures AssignCells(AssignCells(rows, name, first), name, second) == AssignCells(rows, name, second)
  {
    var lhs := AssignCells(AssignCells(rows, name, first), name, second);
    forall i | 0 <= i < |rows| ensures lhs[i] == AssignCells(rows, name, second)[i] {
      assert lhs[i].cells == rows[i].cells[name := second[i]];
    }
  }

  /** Extending by nothing leaves the rows as they are. */
  lemma ExtendedNothing(base: seq<Row>)
    ensures Extended(base, seq(|base|, i => map[])) == base
  {
    var e := Extended(base, seq(|base|, i => map[]));
    forall i | 0 <= i < |base| ensures e[i] == base[i] {
      assert base[i].cells + map[] == base[i].cells;
    }
  }

  /** Extending twice extends by the union of the added cells. */
  lemma ExtendedTwice(base: seq<Row>, a: seq<map<string, Cell>>, b: seq<map<string, Cell>>)
    requires |a| == |b| == |base|
    ensures Extended(Extended(base, a), b) == Extended(base, seq(|base|, i requires 0 <= i < |base| => a[i] + b[i]))
  {
    var lhs := Extended(Extended(base, a), b);
    var rhs := Extended(base, seq(|base|, i requires 0 <= i < |base| => a[i] + b[i]));
    forall i | 0 <= i < |base| ensures lhs[i] == rhs[i] {
      assert lhs[i].cells == rhs[i].cells;
    }
  }

  /** A DataFrame that the preprocessing functions change in place. */
  class Frame {
    var columns: set<string>
    var rows: seq<Row>

    ghost predicate Valid()
      reads this
    {
      Conforms(columns, rows)
    }

    constructor (columns: set<string>, rows: seq<Row>)
      requires Conforms(columns, rows)
      ensures Valid()
      ensures this.columns == columns && this.rows == rows
    {
      this.columns := columns;
      this.rows := rows;
    }

    /** `df[name] = values`: adds the column, or replaces it when present. */
    method Assign(name: string, values: seq<Cell>)
      requires Valid() && |values| == |rows|
      modifies this
      ensures Valid()
      ensures columns == old(columns) + {name}
      ensures rows == AssignCells(old(rows), name, values)
    {
      rows := AssignCells(rows, name, values);
      columns := columns + {name};
    }

    /** `df.drop(columns=name, inplace=True)`: fails (pandas raises `KeyError`)
        and changes nothing when there is no such column. */
    method DropColumn(name: string) returns (ok: bool)
      requires Valid()
      modifies this
      ensures Valid()
      ensures ok == (name in old(columns))
      ensures ok ==> columns == old(columns) - {name} && rows == DropCells(old(rows), name)
      ensures !ok ==> columns == old(columns) && rows == old(rows)
    {
      ok := name in columns;
      if ok {
        rows := DropCells(rows, name);
        columns := columns - {name};
      }
    }
  }
}
