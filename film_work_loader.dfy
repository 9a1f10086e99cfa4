/**
 * src/services/pq_loader_film_work.py: the film-work loader. The film-id
 * query is narrowed, when there is saved state, by a clause inserted before
 * the last person-id condition; `loader` hands the full-load query and that
 * query to `cursor.execute` as a pair and maps each row to a film dict.
 */
module FilmWorkLoading {
  import opened Wrappers
  import opened SqlText
  import opened Postgres

  /** `WHERE pfw.person_id IN (<person query>)`: where the film-id query is narrowed. */
  function PersonMarker(personQuery: string): string
  {
    "WHERE pfw.person_id IN (" + personQuery + ")"
  }

  /** The clause inserted before the last person-id condition. */
  function AndUpdatedSince(state: string): (clause: string)
    ensures |clause| == |state| + 21
    ensures clause[18] == '\'' && OccursAt(clause, state, 19) && clause[19 + |state|] == '\''
  {
    " AND updated_at > '" + state + "' "
  }

  /** The columns `loader` passes under their own names. */
  const CopiedColumns: set<string> := {"id", "title", "description", "actors_names", "writers_names",
                                        "directors_names", "actors", "writers", "directors"}

  /**
   * The keyword arguments of `Film(...)` in `loader`: `rating` becomes
   * `imdb_rating` and `genre` becomes `genres_names`; the other columns keep
   * their names.
   */
  function FilmWorkRecord(row: Row): Record
  {
    map["id" := Get(row, "id"), "imdb_rating" := Get(row, "rating"), "title" := Get(row, "title"),
        "description" := Get(row, "description"), "actors_names" := Get(row, "actors_names"),
        "writers_names" := Get(row, "writers_names"), "directors_names" := Get(row, "directors_names"),
        "genres_names" := Get(row, "genre"), "actors" := Get(row, "actors"),
        "writers" := Get(row, "writers"), "directors" := Get(row, "directors")]
  }

  /** The renamed columns `rating` and `genre` do not appear under their column names. */
  lemma FilmWorkRecordKeys(row: Row)
    ensures "rating" !in FilmWorkRecord(row) && "genre" !in FilmWorkRecord(row)
  {
  }

  /** The dict carries `rating` as `imdb_rating`, `genre` as `genres_names`, and the copied columns as they are. */
  lemma FilmWorkRecordFields(row: Row)
    ensures var r := FilmWorkRecord(row);
            "imdb_rating" in r && r["imdb_rating"] == Get(row, "rating") &&
            "genres_names" in r && r["genres_names"] == Get(row, "genre") &&
            (forall k :: k in CopiedColumns ==> k in r && r[k] == Get(row, k))
  {
    var r := FilmWorkRecord(row);
    forall k | k in CopiedColumns
      ensures k in r && r[k] == Get(row, k)
    {
      if k == "id" {
      } else if k == "title" {
      } else if k == "description" {
      } else if k == "actors_names" {
      } else if k == "writers_names" {
      } else if k == "directors_names" {
      } else if k == "actors" {
      } else if k == "writers" {
      } else {
        assert k == "directors";
      }
    }
  }

  class PostgresLoader {
    const cursor: Cursor
    const batchSize: nat := 100
    const stateKey: Option<string>
    /** The `load_person_id`, `load_film_id` and `full_load` templates. */
    const loadPersonQuery: string
    const loadFilmId: string
    const fullLoad: string
    var data: seq<Record>

    constructor (cursor: Cursor, stateKey: Option<string>, loadPersonQuery: string, loadFilmId: string,
                 fullLoad: string)
      ensures this.cursor == cursor && this.stateKey == stateKey
      ensures this.loadPersonQuery == loadPersonQuery && this.loadFilmId == loadFilmId && this.fullLoad == fullLoad
      ensures data == []
    {
      this.cursor := cursor;
      this.stateKey := stateKey;
      this.loadPersonQuery := loadPersonQuery;
      this.loadFilmId := loadFilmId;
      this.fullLoad := fullLoad;
      data := [];
    }

    /**
     * `load_film_work_id`: the film-id template itself without state;
     * otherwise the clause inserted just before the last person-id
     * condition, everything else kept.
     */
    function LoadFilmWorkId(): (q: string)
      ensures stateKey.None? ==> q == loadFilmId
      ensures stateKey.Some? ==> |q| == |loadFilmId| + |AndUpdatedSince(stateKey.value)|
      ensures stateKey.Some? && Rfind(loadFilmId, PersonMarker(loadPersonQuery)) >= 0 ==>
                var i := Rfind(loadFilmId, PersonMarker(loadPersonQuery));
                q == loadFilmId[..i] + AndUpdatedSince(stateKey.value) + loadFilmId[i..] &&
                OccursAt(q, PersonMarker(loadPersonQuery), i + |AndUpdatedSince(stateKey.value)|)
      ensures stateKey.Some? && Rfind(loadFilmId, PersonMarker(loadPersonQuery)) == -1 && |loadFilmId| > 0 ==>
                q == loadFilmId[..|loadFilmId| - 1] + AndUpdatedSince(stateKey.value) + loadFilmId[|loadFilmId| - 1..]
    {
      if stateKey.None? then loadFilmId
      else SpliceBeforeLast(loadFilmId, PersonMarker(loadPersonQuery), AndUpdatedSince(stateKey.value))
    }

    /**
     * `loader` as written: `cursor.execute((full_load, q))` passes a tuple
     * where psycopg2 takes query text, so the call raises TypeError before
     * any row is read and `data` keeps what it had.
     */
    method Loader() returns (r: Reply<seq<Record>>)
      modifies this, cursor
      ensures r == Raised(TypeError)
      ensures data == old(data) && cursor.pending == old(cursor.pending) && cursor.executed == old(cursor.executed)
    {
      var error := cursor.Execute(SqlPair(fullLoad, LoadFilmWorkId()));
      if error.Some? {
        return Raised(error.value);
      }
      assert false;
    }

    /**
     * `loader` with the statement the later version of this loader uses,
     * `full_load % load_film_work_id()`: every row of that query, in order,
     * appended to `data` as a film dict after what earlier calls appended.
     */
    method LoaderFormatted() returns (r: Reply<seq<Record>>)
      modifies this, cursor
      ensures var q := Format(fullLoad, LoadFilmWorkId());
              q.Found? ==> r == Found(data) &&
                           data == old(data) + MapRows(FilmWorkRecord, cursor.results(q.value)) &&
                           cursor.executed == old(cursor.executed) + [q.value] && cursor.pending == []
      ensures var q := Format(fullLoad, LoadFilmWorkId());
              !q.Found? ==> r == Raised(q.fault) && data == old(data) && cursor.executed == old(cursor.executed) &&
                            cursor.pending == old(cursor.pending)
    {
      var q := Format(fullLoad, LoadFilmWorkId());
      if !q.Found? {
        return Raised(q.fault);
      }
      AppendRows(q.value);
      r := Found(data);
    }

    /** The batch loop of `loader`: the query's rows, fetched a hundred at a time, appended as film dicts. */
    method AppendRows(query: string)
      modifies this, cursor
      ensures data == old(data) + MapRows(FilmWorkRecord, cursor.results(query))
      ensures cursor.executed == old(cursor.executed) + [query] && cursor.pending == []
    {
      var error := cursor.Execute(Sql(query));
      ghost var all := cursor.pending;
      ghost var target := data + MapRows(FilmWorkRecord, all);
      while true
        invariant data + MapRows(FilmWorkRecord, cursor.pending) == target
        invariant cursor.executed == old(cursor.executed) + [query]
        invariant all == cursor.results(query)
        decreases |cursor.pending|
      {
        ghost var before := cursor.pending;
        var rows := cursor.FetchMany(batchSize);
        if |rows| == 0 {
          assert cursor.pending == [];
          break;
        }
        assert before == rows + cursor.pending;
        MapRowsAppend(FilmWorkRecord, rows, cursor.pending);
        assert data + MapRows(FilmWorkRecord, rows) + MapRows(FilmWorkRecord, cursor.pending) == target;
        for i := 0 to |rows|
          modifies this
          invariant data + MapRows(FilmWorkRecord, rows[i..]) + MapRows(FilmWorkRecord, cursor.pending) == target
        {
          MapRowsCons(FilmWorkRecord, rows[i..]);
          assert rows[i..][0] == rows[i] && rows[i..][1..] == rows[i + 1..];
          assert data + MapRows(FilmWorkRecord, rows[i..]) == data + [FilmWorkRecord(rows[i])] + MapRows(FilmWorkRecord, rows[i + 1..]);
          data := data + [FilmWorkRecord(rows[i])];
        }
        assert rows[|rows|..] == [];
        assert data + [] == data;
      }
      assert MapRows(FilmWorkRecord, []) == [];
      assert data + [] == data;
    }
  }

  /**
   * With a full-load template holding one `%s` and no other `%`, the
   * formatted statement is the film-id query embedded at that place, which
   * the pair passed as written never produces.
   */
  lemma FormattedStatementEmbedsFilmIdQuery(l: PostgresLoader, a: string, b: string)
    requires l.fullLoad == a + "%s" + b && NoPercent(a) && NoPercent(b)
    ensures Format(l.fullLoad, l.LoadFilmWorkId()) == Found(a + l.LoadFilmWorkId() + b)
  {
    FormatOnePlaceholder(a, b, l.LoadFilmWorkId());
  }
}
