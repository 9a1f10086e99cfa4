/**
 * src/services/etl/pq_loader_film_work.py: the ETL film loader. The film-id
 * query is the template with the person-id query substituted by `%`, then
 * narrowed by saved state like the other loaders; the full-load query is
 * the full-load template with that query substituted by `%`. Each row is
 * validated as a `Film` of src/models/models.py and its dict appended to
 * `data`; a row that does not validate raises and ends the load.
 */
module EtlFilmWorkLoading {
  import opened Wrappers
  import opened Sequences
  import opened Models
  import opened SqlText
  import opened Postgres
  import FilmWorkLoading

  predicate TextOrNull(c: Cell) { c.Null? || c.Text? }
  predicate TextsOrNull(c: Cell) { c.Null? || c.Texts? }
  predicate DictsOrNull(c: Cell) { c.Null? || c.Dicts? }

  function OptText(c: Cell): Option<string> requires TextOrNull(c) { if c.Text? then Some(c.s) else None }
  function OptTexts(c: Cell): Option<seq<string>> requires TextsOrNull(c) { if c.Texts? then Some(c.items) else None }
  function OptDicts(c: Cell): Option<seq<Dict>> requires DictsOrNull(c) { if c.Dicts? then Some(c.dicts) else None }

  function TextCell(o: Option<string>): Cell { if o.Some? then Text(o.value) else Null }
  function TextsCell(o: Option<seq<string>>): Cell { if o.Some? then Texts(o.value) else Null }
  function DictsCell(o: Option<seq<Dict>>): Cell { if o.Some? then Dicts(o.value) else Null }

  /**
   * Whether `Film(id=..., imdb_rating=row['rating'], title=..., ...)`
   * validates: id and title are text, the rating a number, the optional
   * fields absent or of their declared type. The keyword arguments that are
   * not fields of `Film` (`directors_names`, `genres_names`, `directors`)
   * are ignored.
   */
  predicate ValidFilmRow(row: Row)
  {
    Get(row, "id").Text? && Get(row, "rating").Number? && Get(row, "title").Text? &&
    TextOrNull(Get(row, "description")) &&
    TextsOrNull(Get(row, "actors_names")) && TextsOrNull(Get(row, "writers_names")) &&
    DictsOrNull(Get(row, "actors")) && DictsOrNull(Get(row, "writers"))
  }

  /** The `Film` a row validates to; `genre` and `director` are never passed, so they stay None. */
  function FilmFromRow(row: Row): (f: Option<Film>)
    ensures f.Some? <==> ValidFilmRow(row)
    ensures f.Some? ==> f.value.genre.None? && f.value.director.None?
  {
    if !ValidFilmRow(row) then None
    else Some(Film(Get(row, "id").s, Get(row, "rating").x, None, Get(row, "title").s,
                   OptText(Get(row, "description")), None,
                   OptTexts(Get(row, "actors_names")), OptTexts(Get(row, "writers_names")),
                   OptDicts(Get(row, "actors")), OptDicts(Get(row, "writers"))))
  }

  /** `film.dict()`: every field of `Film` under its own name, None where unset. */
  function FilmRecord(f: Film): Record
  {
    map["id" := Text(f.id), "imdb_rating" := Number(f.imdbRating), "genre" := DictsCell(f.genre),
        "title" := Text(f.title), "description" := TextCell(f.description), "director" := DictsCell(f.director),
        "actors_names" := TextsCell(f.actorsNames), "writers_names" := TextsCell(f.writersNames),
        "actors" := DictsCell(f.actors), "writers" := DictsCell(f.writers)]
  }

  /** The columns that reach the dict under their own names. */
  const KeptColumns: set<string> := {"id", "title", "description", "actors_names", "writers_names", "actors", "writers"}

  /**
   * The dict of a row that validates: `rating` reappears as `imdb_rating`,
   * the kept columns unchanged, `genre` and `director` as None, and the
   * ignored columns not at all.
   */
  lemma RecordOfValidRow(row: Row)
    requires ValidFilmRow(row)
    ensures var r := FilmRecord(FilmFromRow(row).value);
            r["imdb_rating"] == Get(row, "rating") && r["genre"] == Null && r["director"] == Null &&
            (forall k :: k in KeptColumns ==> k in r && r[k] == Get(row, k))
  {
    var f := FilmFromRow(row).value;
    FilmRecordFields(f);
    FilmFromRowFields(row);
    var r := FilmRecord(f);
    forall k | k in KeptColumns
      ensures k in r && r[k] == Get(row, k)
    {
      assert k == "id" || k == "title" || k == "description" || k == "actors_names" || k == "writers_names" ||
             k == "actors" || k == "writers";
    }
  }

  lemma FilmFromRowFields(row: Row)
    requires ValidFilmRow(row)
    ensures var f := FilmFromRow(row).value;
            Text(f.id) == Get(row, "id") && Text(f.title) == Get(row, "title") &&
            Number(f.imdbRating) == Get(row, "rating") &&
            TextCell(f.description) == Get(row, "description") &&
            TextsCell(f.actorsNames) == Get(row, "actors_names") &&
            TextsCell(f.writersNames) == Get(row, "writers_names") &&
            DictsCell(f.actors) == Get(row, "actors") && DictsCell(f.writers) == Get(row, "writers")
  {
  }

  lemma FilmRecordFields(f: Film)
    ensures var r := FilmRecord(f);
            r["id"] == Text(f.id) && r["imdb_rating"] == Number(f.imdbRating) && r["genre"] == DictsCell(f.genre) &&
            r["title"] == Text(f.title) && r["description"] == TextCell(f.description) &&
            r["director"] == DictsCell(f.director) && r["actors_names"] == TextsCell(f.actorsNames) &&
            r["writers_names"] == TextsCell(f.writersNames) && r["actors"] == DictsCell(f.actors) &&
            r["writers"] == DictsCell(f.writers)
  {
  }

  /**
   * The ignored keyword arguments (`directors_names`, `genres_names`,
   * `directors`) and the `rating` column do not appear in the dict.
   */
  lemma FilmRecordKeys(f: Film)
    ensures "directors_names" !in FilmRecord(f) && "genres_names" !in FilmRecord(f)
    ensures "directors" !in FilmRecord(f) && "rating" !in FilmRecord(f)
  {
  }

  /** The load so far: the dicts appended, and the exception that ended it. */
  datatype Loaded = Loaded(records: seq<Record>, fault: Option<Fault>)

  function LoadStep(l: Loaded, row: Row): Loaded
  {
    if l.fault.Some? then l
    else match FilmFromRow(row)
      case Some(f) => Loaded(l.records + [FilmRecord(f)], None)
      case None => Loaded(l.records, Some(ValidationError))
  }

  /**
   * The row loop of `loader_movies` over the remaining rows, from the load
   * it has reached: it only appends, at most one dict per row, and once a
   * row has failed the remaining rows change nothing.
   */
  function LoadFrom(l: Loaded, rows: seq<Row>): (r: Loaded)
    ensures l.fault.Some? ==> r == l
    ensures |l.records| <= |r.records| <= |l.records| + |rows|
    ensures r.records[..|l.records|] == l.records
    ensures r.fault == l.fault || r.fault == Some(ValidationError)
    decreases |rows|
  {
    if rows == [] then l else LoadFrom(LoadStep(l, rows[0]), rows[1..])
  }

  /** The row loop over all the rows, in order, from an empty load. */
  function LoadedMovies(rows: seq<Row>): (r: Loaded)
    ensures |r.records| <= |rows|
    ensures r.fault.None? || r.fault == Some(ValidationError)
  {
    LoadFrom(Loaded([], None), rows)
  }

  /** Records already in the load stay in front of whatever the rest of the loop appends. */
  lemma {:induction false} LoadFromShift(d: seq<Record>, l: Loaded, rows: seq<Row>)
    ensures LoadFrom(Loaded(d + l.records, l.fault), rows) ==
            Loaded(d + LoadFrom(l, rows).records, LoadFrom(l, rows).fault)
    decreases |rows|
  {
    if rows != [] {
      var next := LoadStep(l, rows[0]);
      if l.fault.None? && FilmFromRow(rows[0]).Some? {
        AppendAssoc(d, l.records, [FilmRecord(FilmFromRow(rows[0]).value)]);
      }
      assert LoadStep(Loaded(d + l.records, l.fault), rows[0]) == Loaded(d + next.records, next.fault);
      LoadFromShift(d, next, rows[1..]);
    }
  }

  /** A valid first row puts its dict in front of the load of the remaining rows. */
  lemma LoadedMoviesCons(rows: seq<Row>)
    requires rows != [] && FilmFromRow(rows[0]).Some?
    ensures LoadedMovies(rows) ==
            Loaded([FilmRecord(FilmFromRow(rows[0]).value)] + LoadedMovies(rows[1..]).records,
                   LoadedMovies(rows[1..]).fault)
  {
    var rec := FilmRecord(FilmFromRow(rows[0]).value);
    assert LoadStep(Loaded([], None), rows[0]) == Loaded([rec] + [], None);
    LoadFromShift([rec], Loaded([], None), rows[1..]);
  }

  /** Loading from dicts already in `data` appends the dicts of loading from nothing. */
  lemma LoadedMoviesAfter(d: seq<Record>, rows: seq<Row>)
    ensures LoadFrom(Loaded(d, None), rows) == Loaded(d + LoadedMovies(rows).records, LoadedMovies(rows).fault)
  {
    LoadFromShift(d, Loaded([], None), rows);
    assert d + [] == d;
  }

  /**
   * The dicts appended are exactly those of the longest prefix of rows that
   * validate, in order; the load completes exactly when every row validates,
   * and otherwise stops with ValidationError at the first row that does not.
   */
  lemma {:induction false} LoadedMoviesIsValidPrefix(rows: seq<Row>)
    ensures var l := LoadedMovies(rows);
            |l.records| <= |rows| &&
            (forall i :: 0 <= i < |l.records| ==>
               FilmFromRow(rows[i]).Some? && l.records[i] == FilmRecord(FilmFromRow(rows[i]).value)) &&
            (l.fault.None? <==> |l.records| == |rows|) &&
            (l.fault.Some? ==> l.fault == Some(ValidationError) && FilmFromRow(rows[|l.records|]).None?)
    decreases |rows|
  {
    if rows != [] {
      var first := FilmFromRow(rows[0]);
      if first.None? {
        assert LoadStep(Loaded([], None), rows[0]) == Loaded([], Some(ValidationError));
      } else {
        var rest := LoadedMovies(rows[1..]);
        LoadedMoviesIsValidPrefix(rows[1..]);
        LoadedMoviesCons(rows);
        var l := LoadedMovies(rows);
        forall i | 0 <= i < |l.records|
          ensures FilmFromRow(rows[i]).Some? && l.records[i] == FilmRecord(FilmFromRow(rows[i]).value)
        {
          if i > 0 {
            assert rows[i] == rows[1..][i - 1] && l.records[i] == rest.records[i - 1];
          }
        }
        if l.fault.Some? {
          assert rows[|l.records|] == rows[1..][|rest.records|];
        }
      }
    }
  }

  class PostgresLoader {
    const cursor: Cursor
    const batchSize: nat := 100
    const stateKey: Option<string>
    /** The `load_person_q`, `load_film_id` and `full_load` templates. */
    const loadPersonQ: string
    const loadFilmId: string
    const fullLoad: string
    var data: seq<Record>

    constructor (cursor: Cursor, stateKey: Option<string>, loadPersonQ: string, loadFilmId: string,
                 fullLoad: string)
      ensures this.cursor == cursor && this.stateKey == stateKey
      ensures this.loadPersonQ == loadPersonQ && this.loadFilmId == loadFilmId && this.fullLoad == fullLoad
      ensures data == []
    {
      this.cursor := cursor;
      this.stateKey := stateKey;
      this.loadPersonQ := loadPersonQ;
      this.loadFilmId := loadFilmId;
      this.fullLoad := fullLoad;
      data := [];
    }

    /**
     * `load_film_work_id`: `load_film_id % person query` (whose errors
     * propagate); without state that text itself, otherwise the clause
     * inserted just before the last person-id condition of it.
     */
    function LoadFilmWorkId(): (r: Reply<string>)
      ensures !r.Found? ==> r == Format(loadFilmId, loadPersonQ)
      ensures Format(loadFilmId, loadPersonQ).Found? <==> r.Found?
      ensures r.Found? && stateKey.None? ==> r == Format(loadFilmId, loadPersonQ)
      ensures r.Found? && stateKey.Some? ==>
                var query := Format(loadFilmId, loadPersonQ).value;
                var clause := FilmWorkLoading.AndUpdatedSince(stateKey.value);
                var marker := FilmWorkLoading.PersonMarker(loadPersonQ);
                |r.value| == |query| + |clause| &&
                (Rfind(query, marker) >= 0 ==>
                   r.value == query[..Rfind(query, marker)] + clause + query[Rfind(query, marker)..]) &&
                (Rfind(query, marker) == -1 && |query| > 0 ==>
                   r.value == query[..|query| - 1] + clause + query[|query| - 1..])
    {
      var query := Format(loadFilmId, loadPersonQ);
      if !query.Found? || stateKey.None? then query
      else Found(SpliceBeforeLast(query.value, FilmWorkLoading.PersonMarker(loadPersonQ),
                                  FilmWorkLoading.AndUpdatedSince(stateKey.value)))
    }

    /**
     * `load_all_film_work_person`: `full_load % load_film_work_id()`. A
     * statement is built only from a film-id query, is at least as long as
     * it, and every failure is a `%` formatting error.
     */
    function LoadAllFilmWorkPerson(): (r: Reply<string>)
      ensures !LoadFilmWorkId().Found? ==> r == LoadFilmWorkId()
      ensures LoadFilmWorkId().Found? ==> r == Format(fullLoad, LoadFilmWorkId().value)
      ensures r.Found? ==> LoadFilmWorkId().Found? && |r.value| >= |LoadFilmWorkId().value|
      ensures !r.Found? ==> r.Raised? && (r.fault == TypeError || r.fault == ValueError)
    {
      var q := LoadFilmWorkId();
      if q.Found? then Format(fullLoad, q.value) else q
    }

    /**
     * `loader_movies`: the statement built (its formatting errors
     * propagate), executed once, and its rows appended to `data` as film
     * dicts until the first row that does not validate.
     */
    method LoaderMovies() returns (r: Reply<seq<Record>>)
      modifies this, cursor
      ensures var q := LoadAllFilmWorkPerson();
              !q.Found? ==> r == Raised(q.fault) && data == old(data) &&
                            cursor.executed == old(cursor.executed) && cursor.pending == old(cursor.pending)
      ensures var q := LoadAllFilmWorkPerson();
              q.Found? ==>
                var l := LoadedMovies(cursor.results(q.value));
                data == old(data) + l.records && cursor.executed == old(cursor.executed) + [q.value] &&
                (l.fault.None? ==> r == Found(data) && cursor.pending == []) &&
                (l.fault.Some? ==> r == Raised(l.fault.value))
    {
      var q := LoadAllFilmWorkPerson();
      if !q.Found? {
        return Raised(q.fault);
      }
      r := AppendMovies(q.value);
    }

    /** The batch loop of `loader_movies`, a hundred rows per fetch. */
    method AppendMovies(query: string) returns (r: Reply<seq<Record>>)
      modifies this, cursor
      ensures var l := LoadedMovies(cursor.results(query));
              data == old(data) + l.records && cursor.executed == old(cursor.executed) + [query] &&
              (l.fault.None? ==> r == Found(data) && cursor.pending == []) &&
              (l.fault.Some? ==> r == Raised(l.fault.value))
    {
      var error := cursor.Execute(Sql(query));
      ghost var all := cursor.pending;
      ghost var target := LoadFrom(Loaded(data, None), all);
      LoadedMoviesAfter(data, all);
      while true
        invariant LoadFrom(Loaded(data, None), cursor.pending) == target
        invariant cursor.executed == old(cursor.executed) + [query]
        invariant all == cursor.results(query)
        decreases |cursor.pending|
      {
        ghost var before := cursor.pending;
        var rows := cursor.FetchMany(batchSize);
        if |rows| == 0 {
          assert cursor.pending == [];
          break;
        }
        assert before == rows + cursor.pending;
        var failed := AppendBatch(rows, cursor.pending, target);
        if failed {
          return Raised(ValidationError);
        }
      }
      assert target == Loaded(data, None);
      r := Found(data);
    }

    /** `for row in rows`: one batch, validated and appended row by row. */
    method AppendBatch(rows: seq<Row>, ghost rest: seq<Row>, ghost target: Loaded) returns (failed: bool)
      requires LoadFrom(Loaded(data, None), rows + rest) == target
      modifies this
      ensures !failed ==> LoadFrom(Loaded(data, None), rest) == target
      ensures failed ==> target == Loaded(data, Some(ValidationError))
    {
      for i := 0 to |rows|
        invariant LoadFrom(Loaded(data, None), rows[i..] + rest) == target
      {
        assert (rows[i..] + rest)[0] == rows[i] && (rows[i..] + rest)[1..] == rows[i + 1..] + rest;
        var film := FilmFromRow(rows[i]);
        if film.None? {
          return true;
        }
        data := data + [FilmRecord(film.value)];
      }
      assert rows[|rows|..] + rest == rest;
      failed := false;
    }
  }

  /**
   * With a full-load template holding one `%s` and no other `%`, the
   * statement is the film-id query embedded at that place; a failure to
   * build the film-id query is the statement's failure.
   */
  lemma AllFilmWorkPersonEmbedsFilmIdQuery(l: PostgresLoader, a: string, c: string)
    requires l.fullLoad == a + "%s" + c && NoPercent(a) && NoPercent(c)
    ensures l.LoadFilmWorkId().Found? ==> l.LoadAllFilmWorkPerson() == Found(a + l.LoadFilmWorkId().value + c)
    ensures !l.LoadFilmWorkId().Found? ==> l.LoadAllFilmWorkPerson() == l.LoadFilmWorkId()
  {
    if l.LoadFilmWorkId().Found? {
      FormatOnePlaceholder(a, c, l.LoadFilmWorkId().value);
    }
  }
}
