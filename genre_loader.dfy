/**
 * src/services/pq_loader_genre.py: the genre loader. The query is the
 * genre template, narrowed to rows updated since the saved state when there
 * is one; the rows are fetched a hundred at a time and one dict per row is
 * appended to `data`, which is never reset.
 */
module GenreLoading {
  import opened Wrappers
  import opened SqlText
  import opened Postgres

  const GenreMarker := "content.genre"

  /** The clause inserted before the last `content.genre`. */
  function WhereUpdatedSince(state: string): (clause: string)
    ensures |clause| == |state| + 23
    ensures clause[20] == '\'' && OccursAt(clause, state, 21) && clause[21 + |state|] == '\''
  {
    " WHERE updated_at > '" + state + "' "
  }

  /** `Genre(id=..., name=..., description=...).dict()`: the three columns by name. */
  function GenreRecord(row: Row): (r: Record)
    ensures r.Keys == {"id", "name", "description"}
    ensures forall k :: k in r ==> r[k] == Get(row, k)
  {
    map["id" := Get(row, "id"), "name" := Get(row, "name"), "description" := Get(row, "description")]
  }

  class PostgresLoader {
    const cursor: Cursor
    const batchSize: nat := 100
    /** The saved state (an `updated_at` bound) read when the loader is made, or None. */
    const stateKey: Option<string>
    /** The `query_all_genre` template. */
    const queryAllGenre: string
    var data: seq<Record>

    constructor (cursor: Cursor, stateKey: Option<string>, queryAllGenre: string)
      ensures this.cursor == cursor && this.stateKey == stateKey && this.queryAllGenre == queryAllGenre
      ensures data == []
    {
      this.cursor := cursor;
      this.stateKey := stateKey;
      this.queryAllGenre := queryAllGenre;
      data := [];
    }

    /**
     * `load_genre`: the template itself without state; otherwise the clause
     * inserted just before the last `content.genre`, everything else kept.
     */
    function LoadGenre(): (q: string)
      ensures stateKey.None? ==> q == queryAllGenre
      ensures stateKey.Some? ==> |q| == |queryAllGenre| + |WhereUpdatedSince(stateKey.value)|
      ensures stateKey.Some? && Rfind(queryAllGenre, GenreMarker) >= 0 ==>
                var i := Rfind(queryAllGenre, GenreMarker);
                q == queryAllGenre[..i] + WhereUpdatedSince(stateKey.value) + queryAllGenre[i..] &&
                OccursAt(q, GenreMarker, i + |WhereUpdatedSince(stateKey.value)|)
      ensures stateKey.Some? && Rfind(queryAllGenre, GenreMarker) == -1 && |queryAllGenre| > 0 ==>
                q == queryAllGenre[..|queryAllGenre| - 1] + WhereUpdatedSince(stateKey.value) +
                     queryAllGenre[|queryAllGenre| - 1..]
    {
      if stateKey.None? then queryAllGenre
      else SpliceBeforeLast(queryAllGenre, GenreMarker, WhereUpdatedSince(stateKey.value))
    }

    /**
     * `loader`: every row of the query, in order, appended to `data` as a
     * genre dict after what earlier calls appended; the query is executed
     * once and its rows are consumed.
     */
    method Loader() returns (r: seq<Record>)
      modifies this, cursor
      ensures cursor.executed == old(cursor.executed) + [LoadGenre()]
      ensures cursor.pending == []
      ensures data == old(data) + MapRows(GenreRecord, cursor.results(LoadGenre()))
      ensures r == data
    {
      var error := cursor.Execute(Sql(LoadGenre()));
      ghost var all := cursor.pending;
      ghost var target := data + MapRows(GenreRecord, all);
      while true
        invariant data + MapRows(GenreRecord, cursor.pending) == target
        invariant cursor.executed == old(cursor.executed) + [LoadGenre()]
        invariant all == cursor.results(LoadGenre())
        decreases |cursor.pending|
      {
        ghost var before := cursor.pending;
        var rows := cursor.FetchMany(batchSize);
        if |rows| == 0 {
          assert cursor.pending == [];
          break;
        }
        assert before == rows + cursor.pending;
        MapRowsAppend(GenreRecord, rows, cursor.pending);
        assert data + MapRows(GenreRecord, rows) + MapRows(GenreRecord, cursor.pending) == target;
        for i := 0 to |rows|
          modifies this
          invariant data + MapRows(GenreRecord, rows[i..]) + MapRows(GenreRecord, cursor.pending) == target
        {
          MapRowsCons(GenreRecord, rows[i..]);
          assert rows[i..][0] == rows[i] && rows[i..][1..] == rows[i + 1..];
          assert data + MapRows(GenreRecord, rows[i..]) == data + [GenreRecord(rows[i])] + MapRows(GenreRecord, rows[i + 1..]);
          data := data + [GenreRecord(rows[i])];
        }
        assert rows[|rows|..] == [];
        assert data + [] == data;
      }
      assert MapRows(GenreRecord, []) == [];
      assert data + [] == data;
      r := data;
    }
  }
}
