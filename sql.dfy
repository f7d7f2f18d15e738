/** The database wrapper (core/db/db.py): every helper runs one statement, bumps the
    call counter and shapes what the statement's cursor yields. The statement itself
    is executed by the store model (module Store), which hands back the cursor. */
module Sql {
  import opened Common

  /** A column value as the SQLite driver returns it. */
  datatype Value = Null | Int(i: int) | Text(s: string)

  /** Python truthiness of a column value: NULL, 0 and the empty string are falsy. */
  predicate Truthy(v: Value)
  {
    match v
    case Null => false
    case Int(i) => i != 0
    case Text(s) => s != ""
  }

  /** `str(v)` of a column value. */
  function Str(v: Value): string
  {
    match v
    case Null => "None"
    case Int(i) => Decimal(i)
    case Text(s) => s
  }

  /** A result row; every statement the core runs selects at least one column. */
  type Row = r: seq<Value> | |r| > 0 witness [Null]

  /** What `field` makes of a result set: the first column of the first row, or
      None when there is no row or that column is falsy. */
  function FieldOf(rows: seq<Row>): Option<Value>
  {
    if rows != [] && Truthy(rows[0][0]) then Some(rows[0][0]) else None
  }

  /** `field` answers None for exactly these results: no row at all, or a first
      column that is NULL, the integer 0 or the empty string. */
  lemma FieldNoneCases(rows: seq<Row>)
    ensures FieldOf(rows) == None <==>
      rows == [] || rows[0][0] == Null || rows[0][0] == Int(0) || rows[0][0] == Text("")
  {
  }

  /** What `column` makes of a result set: the first column of every row, in order. */
  function ColumnOf(rows: seq<Row>): (r: seq<Value>)
    ensures |r| == |rows|
    ensures forall i :: 0 <= i < |rows| ==> r[i] == rows[i][0]
  {
    if rows == [] then [] else ColumnOf(rows[..|rows| - 1]) + [rows[|rows| - 1][0]]
  }

  /** A cursor over the rows a statement produced; fetching consumes them. */
  class Cursor {
    var pending: seq<Row>
    const rowcount: int

    constructor (rows: seq<Row>, rowcount: int)
      ensures pending == rows && this.rowcount == rowcount
    {
      pending := rows;
      this.rowcount := rowcount;
    }

    method FetchOne() returns (r: Option<Row>)
      modifies this
      ensures old(pending) == [] ==> r == None && pending == []
      ensures old(pending) != [] ==> r == Some(old(pending)[0]) && pending == old(pending)[1..]
    {
      if pending == [] {
        r := None;
      } else {
        r := Some(pending[0]);
        pending := pending[1..];
      }
    }

    method FetchAll() returns (rows: seq<Row>)
      modifies this
      ensures rows == old(pending) && pending == []
    {
      rows := pending;
      pending := [];
    }
  }

  /** The wrapper object (`bot.db`); `calls` is its `_calls` counter. */
  class Database {
    var calls: nat

    constructor ()
      ensures calls == 0
    {
      calls := 0;
    }

    /** `field`: first column of the first row, None when absent or falsy. */
    method Field(cur: Cursor) returns (v: Option<Value>)
      modifies this, cur
      ensures calls == old(calls) + 1
      ensures v == FieldOf(old(cur.pending))
      ensures cur.pending == if old(cur.pending) == [] then [] else old(cur.pending)[1..]
    {
      calls := calls + 1;
      var row := cur.FetchOne();
      if row.Some? {
        v := if Truthy(row.value[0]) then Some(row.value[0]) else None;
      } else {
        v := None;
      }
    }

    /** `record`: the first row, if any. */
    method Record(cur: Cursor) returns (row: Option<Row>)
      modifies this, cur
      ensures calls == old(calls) + 1
      ensures row == if old(cur.pending) == [] then None else Some(old(cur.pending)[0])
      ensures cur.pending == if old(cur.pending) == [] then [] else old(cur.pending)[1..]
    {
      calls := calls + 1;
      row := cur.FetchOne();
    }

    /** `records`: as written it drains the cursor into a local and returns a second
        `fetchall`, so every row is consumed and the caller always receives []. */
    method Records(cur: Cursor) returns (rows: seq<Row>)
      modifies this, cur
      ensures calls == old(calls) + 1
      ensures rows == [] && cur.pending == []
    {
      calls := calls + 1;
      var data := cur.FetchAll();
      rows := cur.FetchAll();
    }

    /** `column`: the first column of every row, one entry per row, in cursor order. */
    method Column(cur: Cursor) returns (col: seq<Value>)
      modifies this, cur
      ensures calls == old(calls) + 1
      ensures |col| == |old(cur.pending)|
      ensures forall i :: 0 <= i < |col| ==> col[i] == old(cur.pending)[i][0]
      ensures cur.pending == []
    {
      calls := calls + 1;
      var rows := cur.FetchAll();
      col := [];
      var i := 0;
      while i < |rows|
        invariant 0 <= i <= |rows|
        invariant col == ColumnOf(rows[..i])
      {
        assert rows[..i + 1][..i] == rows[..i];
        col := col + [rows[i][0]];
        i := i + 1;
      }
      assert rows[..|rows|] == rows;
    }

    /** `execute`: the statement's row count. */
    method Execute(cur: Cursor) returns (count: int)
      modifies this
      ensures calls == old(calls) + 1
      ensures count == cur.rowcount
    {
      calls := calls + 1;
      count := cur.rowcount;
    }

    /** `executemany`: the row count of the batch; the wrapper does what `execute`
        does, on the cursor of a batch. */
    method ExecuteMany(cur: Cursor) returns (count: int)
      modifies this
      ensures calls == old(calls) + 1
      ensures count == cur.rowcount
    {
      count := Execute(cur);
    }

    /** `executescript`: the counter moves only once the script has run; a script
        that raises propagates before the increment. */
    method ExecuteScript(scriptRaises: bool) returns (ran: bool)
      modifies this
      ensures ran == !scriptRaises
      ensures calls == old(calls) + (if ran then 1 else 0)
    {
      if scriptRaises {
        ran := false;
        return;
      }
      ran := true;
      calls := calls + 1;
    }

    /** `connect`: the WAL pragma goes through `execute` and the build script through
        `executescript`; the commit is not counted. `ok` says whether the script ran. */
    method Connect(scriptRaises: bool) returns (ok: bool)
      modifies this
      ensures ok == !scriptRaises
      ensures calls == old(calls) + (if ok then 2 else 1)
    {
      var pragma := new Cursor([], -1);
      var count := Execute(pragma);
      ok := ExecuteScript(scriptRaises);
    }
  }
}
