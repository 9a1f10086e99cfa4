/**
 * The PostgreSQL side of the loaders: a `DictCursor` whose answer to each
 * statement is a fixed list of rows (the database itself is a parameter),
 * consumed with `fetchmany`.
 */
module Postgres {
  import opened Wrappers
  import opened Models

  /** A column value as psycopg2 hands it over. */
  datatype Cell = Null | Text(s: string) | Number(x: real) | Texts(items: seq<string>) | Dicts(dicts: seq<Dict>)

  /** A fetched row, by column name; `dict(row)` of a `DictRow`. */
  type Row = map<string, Cell>

  /** A dict appended to a loader's `data`. */
  type Record = map<string, Cell>

  /** `dict(row).get(column)`: a missing column is None. */
  function Get(row: Row, column: string): Cell
  {
    if column in row then row[column] else Null
  }

  /** What is passed to `cursor.execute`: query text, or a pair of texts. */
  datatype Statement = Sql(text: string) | SqlPair(first: string, second: string)

  /** One record per row, in row order. */
  function MapRows(f: Row -> Record, rows: seq<Row>): (records: seq<Record>)
    ensures |records| == |rows|
    ensures forall i :: 0 <= i < |rows| ==> records[i] == f(rows[i])
  {
    seq(|rows|, i requires 0 <= i < |rows| => f(rows[i]))
  }

  /** The first row's record comes first, then the rest's. */
  lemma MapRowsCons(f: Row -> Record, rows: seq<Row>)
    requires rows != []
    ensures MapRows(f, rows) == [f(rows[0])] + MapRows(f, rows[1..])
  {
    assert forall i :: 1 <= i < |rows| ==> rows[1..][i - 1] == rows[i];
  }

  /** Mapping two runs of rows one after the other maps their concatenation. */
  lemma MapRowsAppend(f: Row -> Record, a: seq<Row>, b: seq<Row>)
    ensures MapRows(f, a + b) == MapRows(f, a) + MapRows(f, b)
  {
    assert forall i :: |a| <= i < |a| + |b| ==> (a + b)[i] == b[i - |a|];
  }

  class Cursor {
    /** The rows the database answers each query text with. */
    const results: string -> seq<Row>
    /** The rows of the last executed query not fetched yet. */
    var pending: seq<Row>
    /** The query texts executed so far. */
    var executed: seq<string>

    constructor (results: string -> seq<Row>)
      ensures this.results == results && pending == [] && executed == []
    {
      this.results := results;
      pending := [];
      executed := [];
    }

    /**
     * `cursor.execute(statement)`: query text is run and its rows become
     * pending; anything else is refused with TypeError (psycopg2 takes the
     * query as a string) and nothing changes.
     */
    method Execute(statement: Statement) returns (error: Option<Fault>)
      modifies this
      ensures statement.Sql? ==> error.None? && pending == results(statement.text) &&
                                 executed == old(executed) + [statement.text]
      ensures statement.SqlPair? ==> error == Some(TypeError) && pending == old(pending) &&
                                     executed == old(executed)
    {
      if statement.SqlPair? {
        return Some(TypeError);
      }
      pending := results(statement.text);
      executed := executed + [statement.text];
      error := None;
    }

    /** `cursor.fetchmany(size)`: the next `size` pending rows, fewer at the end, none when exhausted. */
    method FetchMany(size: nat) returns (rows: seq<Row>)
      modifies this
      ensures var n := if size < |old(pending)| then size else |old(pending)|;
              rows == old(pending)[..n] && pending == old(pending)[n..]
      ensures executed == old(executed)
    {
      var n := if size < |pending| then size else |pending|;
      rows := pending[..n];
      pending := pending[n..];
    }
  }
}
