/** The store behind the handlers (utils.py `SQLiteConnection`): the file
    `widget.db`, holding the committed `Widgets` table, and the scoped
    connection guard. The guard has three states (no connection yet, open,
    closed). While it is open, statements work on an uncommitted copy of
    the table. Leaving the guard always commits that copy and then closes
    the connection, whether or not an exception is on its way out. */
module Storage {
  import opened Text
  import opened Widgets
  import opened Table

  /** Bounds of an SQLite INTEGER: larger ints cannot be bound to a statement. */
  const SQLITE_INTEGER_MIN: int := -0x8000_0000_0000_0000
  const SQLITE_INTEGER_MAX: int := 0x7fff_ffff_ffff_ffff

  predicate FitsInteger(i: int) {
    SQLITE_INTEGER_MIN <= i <= SQLITE_INTEGER_MAX
  }

  /** The statements the handlers execute. */
  datatype Statement =
    | InsertRow(row: Row)                                    // INSERT INTO Widgets VALUES (...)
    | SelectAll                                              // SELECT * FROM Widgets
    | SelectWhere(cond: Where)                               // SELECT * FROM Widgets WHERE ...
    | UpdateWhere(cond: Where, parts: int, updated: Stamp)   // UPDATE Widgets SET ... WHERE ...
    | DeleteWhere(cond: Where)                               // DELETE from Widgets WHERE ...

  /** The int parameters a statement binds, in the order of its SQL text. */
  function IntParams(stmt: Statement): seq<int> {
    var cond := if stmt.SelectWhere? || stmt.UpdateWhere? || stmt.DeleteWhere? then CondParams(stmt.cond) else [];
    match stmt
    case InsertRow(r) => [r.parts]
    case UpdateWhere(_, parts, _) => [parts] + cond
    case _ => cond
  }

  function CondParams(w: Where): seq<int> {
    if w.NameAndPartsEq? then [w.parts] else []
  }

  predicate CondBindable(w: Where) {
    w.NameAndPartsEq? ==> FitsInteger(w.parts)
  }

  /** A statement binds when every int it carries fits an SQLite INTEGER;
      otherwise binding raises OverflowError and the statement has no
      effect. */
  predicate Bindable(stmt: Statement)
    ensures Bindable(stmt) <==> forall k :: k in IntParams(stmt) ==> FitsInteger(k)
  {
    match stmt
    case InsertRow(r) => FitsInteger(r.parts)
    case SelectAll => true
    case SelectWhere(w) => CondBindable(w)
    case UpdateWhere(w, parts, _) => CondBindable(w) && FitsInteger(parts)
    case DeleteWhere(w) => CondBindable(w)
  }

  /** `after` is what an UPDATE with WHERE `w` and SET `parts`, `updated`
      makes of `before`: name and creation stamp kept, the SET applied when
      the row satisfies `w`, and the row untouched otherwise. */
  predicate RowUpdated(before: Row, after: Row, w: Where, parts: int, updated: Stamp) {
    && after.name == before.name && after.created == before.created
    && (Matches(w, before) ==> after.parts == parts && after.updated == updated)
    && (!Matches(w, before) ==> after == before)
  }

  /** The table after the statement: a query leaves it as it was, an INSERT
      adds exactly its row, a DELETE takes away exactly the rows a SELECT
      with its WHERE returns, and an UPDATE keeps every row in place with
      its name and creation stamp, gives each row that satisfies its WHERE
      the new part count and update stamp, and leaves every other row as it
      was. */
  function Effect(stmt: Statement, t: seq<Row>): (r: seq<Row>)
    ensures stmt.SelectAll? || stmt.SelectWhere? ==> r == t
    ensures stmt.InsertRow? ==> multiset(r) == multiset(t) + multiset{stmt.row}
    ensures stmt.DeleteWhere? ==> multiset(r) + multiset(Select(t, stmt.cond)) == multiset(t)
    ensures stmt.UpdateWhere? ==>
      && |r| == |t|
      && forall i :: 0 <= i < |t| ==> RowUpdated(t[i], r[i], stmt.cond, stmt.parts, stmt.updated)
  {
    match stmt
    case InsertRow(row) => t + [row]
    case SelectAll => t
    case SelectWhere(_) => t
    case UpdateWhere(w, parts, updated) =>
      var u := Update(t, w, parts, updated);
      assert forall i :: 0 <= i < |t| ==> RowUpdated(t[i], u[i], w, parts, updated) by {
        forall i | 0 <= i < |t| ensures RowUpdated(t[i], u[i], w, parts, updated) {
          UpdateAt(t, w, parts, updated, i);
        }
      }
      u
    case DeleteWhere(w) =>
      SelectDeletePartition(t, w);
      Delete(t, w)
  }

  /** What `fetchall()` returns after the statement: never a row the table
      does not hold, nor more copies of it; for a SELECT with a WHERE,
      exactly the rows that satisfy it, as often as the table holds them;
      nothing at all for a write. */
  function Fetched(stmt: Statement, t: seq<Row>): (r: seq<Row>)
    ensures multiset(r) <= multiset(t)
    ensures stmt.SelectAll? ==> r == t
    ensures stmt.SelectWhere? ==>
      forall x :: multiset(r)[x] == if Matches(stmt.cond, x) then multiset(t)[x] else 0
    ensures !(stmt.SelectAll? || stmt.SelectWhere?) ==> r == []
  {
    match stmt
    case SelectAll => t
    case SelectWhere(w) =>
      var s := Select(t, w);
      assert forall x :: multiset(s)[x] == if Matches(w, x) then multiset(t)[x] else 0 by {
        forall x ensures multiset(s)[x] == if Matches(w, x) then multiset(t)[x] else 0 {
          SelectCount(t, w, x);
        }
      }
      s
    case _ => []
  }

  /** The exception that can leave a guarded block in this model. */
  datatype Fault = OverflowError

  datatype GuardState = Unconnected | Connected | Closed

  datatype Event = Connect | Commit | Close

  /** The database file `widget.db`: the committed table. */
  class DbFile {
    var table: seq<Row>

    constructor (table: seq<Row>)
      ensures this.table == table
    {
      this.table := table;
    }
  }

  /** utils.py `SQLiteConnection`. */
  class SQLiteConnection {
    const file: DbFile
    /** `self.connection`: None, an open connection, or a closed one. */
    var state: GuardState
    /** The table as the open connection sees it, not yet committed. */
    var pending: seq<Row>
    /** What the guard has done to its connections so far. */
    var history: seq<Event>

    /** The state is the last thing done: nothing, a connect, or a close
        that came straight after a commit. */
    ghost predicate Valid()
      reads this
    {
      && (state == Unconnected <==> history == [])
      && (state == Connected <==> history != [] && history[|history| - 1] == Connect)
      && (state == Closed <==> |history| >= 2 && history[|history| - 2..] == [Commit, Close])
      && (forall i :: 0 <= i < |history| && history[i] == Close ==> i > 0 && history[i - 1] == Commit)
    }

    /** `__init__`: no connection yet. */
    constructor (file: DbFile)
      ensures Valid()
      ensures this.file == file && state == Unconnected && history == []
    {
      this.file := file;
      state := Unconnected;
      pending := [];
      history := [];
    }

    /** `__enter__`: connect to the file. A connection still open is
        dropped, and its uncommitted work with it. */
    method Enter()
      requires Valid()
      modifies this
      ensures Valid()
      ensures state == Connected && pending == file.table
      ensures history == old(history) + [Connect]
    {
      state := Connected;
      pending := file.table;
      history := history + [Connect];
    }

    /** `cursor().execute(stmt)` followed by `fetchall()`: `ok` is false when
        binding raised OverflowError. */
    method Execute(stmt: Statement) returns (ok: bool, rows: seq<Row>)
      requires Valid() && state == Connected
      modifies this`pending
      ensures Valid()
      ensures ok == Bindable(stmt)
      ensures ok ==> pending == Effect(stmt, old(pending)) && rows == Fetched(stmt, old(pending))
      ensures !ok ==> pending == old(pending) && rows == []
    {
      ok := Bindable(stmt);
      if ok {
        rows := Fetched(stmt, pending);
        pending := Effect(stmt, pending);
      } else {
        rows := [];
      }
    }

    /** `__exit__(exc_type, ...)`: commit, then close, whatever `exc` is; the
        exception, if any, is not suppressed. */
    method Exit(exc: Option<Fault>)
      requires Valid() && state == Connected
      modifies this, file
      ensures Valid()
      ensures file.table == old(pending)
      ensures state == Closed && pending == old(pending)
      ensures history == old(history) + [Commit, Close]
    {
      file.table := pending;
      history := history + [Commit];
      history := history + [Close];
      state := Closed;
    }
  }
}
