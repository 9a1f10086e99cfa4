/**
 * src/services/film.py: the film service, built on the film cache. `get_film`
 * is the cache-aside protocol with a caller-chosen key and search body;
 * `get_film_alike` reads the source film through `get_film`, runs one
 * search per genre of that film and caches the concatenation of the hits.
 */
module FilmServices {
  import opened Wrappers
  import opened Sequences
  import opened Models
  import opened Serialization
  import opened RedisStore
  import opened ElasticSearch
  import opened Protocol
  import opened FilmCache

  const MoviesIndex := "movies"

  /** The `query` dict: sort field and direction, page number and page size. */
  datatype FilmQuery = FilmQuery(sortField: string, sortType: string, pageNumber: int, pageSize: int)

  /** The window every per-genre search of `get_film_alike` asks for: ten best-rated films. */
  const AlikeQuery := FilmQuery("imdb_rating", "desc", 0, 10)

  /**
   * The request `_get_film_by_search_from_elastic` sends: index `movies`, the
   * body as given, and size, offset and sort taken from the query when there
   * is one.
   */
  function FilmRequest(query: Option<FilmQuery>, body: Option<Body>): (req: Request)
    ensures req.Search? && req.index == MoviesIndex && req.body == body
    ensures query.None? ==> req.size.None? && req.from.None? && req.sort.None?
    ensures query.Some? ==> req.size == Some(query.value.pageSize)
    ensures query.Some? ==> req.from == Some(query.value.pageNumber * query.value.pageSize)
    ensures query.Some? ==> req.sort == Some(query.value.sortField + ":" + query.value.sortType)
  {
    match query
    case None => Request.Search(MoviesIndex, body, None, None, None)
    case Some(q) =>
      Request.Search(MoviesIndex, body, Some(q.pageSize), Some(q.pageNumber * q.pageSize),
                     Some(q.sortField + ":" + q.sortType))
  }

  /** `{'query': {'match_all': {}}}`. */
  function MatchAllBody(): Body
  {
    map["query" := JObj(map["match_all" := JObj(map[])])]
  }

  /** `{'query': {'match': {'_id': film_id}}}`: the source film of `get_film_alike`. */
  function SourceFilmBody(filmId: string): Body
  {
    map["query" := JObj(map["match" := JObj(map["_id" := JStr(filmId)])])]
  }

  /** `{"query": {"match": {"genre.id": {"query": genre_id}}}}`: the films of one genre. */
  function GenreBody(genreId: string): Body
  {
    map["query" := JObj(map["match" := JObj(map["genre.id" := JObj(map["query" := JStr(genreId)])])])]
  }

  /** `if not body: body = match_all`: a missing or empty body asks for every film. */
  function EffectiveBody(body: Option<Body>): (b: Body)
    ensures body.Some? && |body.value| > 0 ==> b == body.value
    ensures body.None? || |body.value| == 0 ==> b == MatchAllBody()
    ensures |b| > 0
  {
    if body.Some? && |body.value| > 0 then body.value else MatchAllBody()
  }

  // ---------------------------------------------------------------------------
  // get_film
  // ---------------------------------------------------------------------------

  /** A search's films as the value the cache stores. */
  function AsFilms(r: Reply<seq<Film>>): Reply<FilmValue>
  {
    match r
    case Found(films) => Found(Films(films))
    case NotFound => NotFound
    case Raised(e) => Raised(e)
  }

  /**
   * `get_film(key, query, body)`: a truthy cached value under `key` is
   * returned as is; otherwise the search runs with the effective body and a
   * non-empty result is cached under `key` as a list.
   */
  function GetFilmSpec(entries: map<string, Entry>, contents: Contents, key: string,
                       query: Option<FilmQuery>, body: Option<Body>): (s: Step<FilmValue>)
    ensures s.reply.Found? ==> Truthy(s.reply.value)
    ensures s.issued != [] && s.reply.Found? ==> s.reply.value.Films?
    ensures s.issued != [] && s.reply.Found? ==>
              s.entries == entries[key := Entry(Encode(s.reply.value), FilmCacheExpireInSeconds)]
    ensures s.issued != [] && !s.reply.Found? ==> s.entries == entries
    ensures var c := CachedFilm(entries, key);
            (s.issued == [] <==> c.Raised? || (c.Found? && Truthy(c.value))) &&
            (s.issued == [] ==> s.reply == c && s.entries == entries)
    ensures var request := FilmRequest(query, Some(EffectiveBody(body)));
            var fetched := ToFilms(contents.hits(request));
            s.issued != [] ==>
              s.issued == [request] &&
              (fetched.Raised? ==> s.reply == Raised(fetched.fault)) &&
              (fetched.Found? && |fetched.value| > 0 ==> s.reply == Found(Films(fetched.value))) &&
              (fetched.Found? && fetched.value == [] ==> s.reply == NotFound)
  {
    var request := FilmRequest(query, Some(EffectiveBody(body)));
    CacheAside(entries, CachedFilm(entries, key), Truthy, request,
               AsFilms(ToFilms(contents.hits(request))),
               (v: FilmValue) => (key, Encode(v)), FilmCacheExpireInSeconds)
  }

  /** A `get_film` that found something leaves it where the next `get_film` of that key reads it. */
  lemma {:induction false} GetFilmWarmRead(entries: map<string, Entry>, contents: Contents, key: string,
                                           query: Option<FilmQuery>, body: Option<Body>)
    requires GetFilmSpec(entries, contents, key, query, body).reply.Found?
    ensures var s := GetFilmSpec(entries, contents, key, query, body);
            GetFilmSpec(s.entries, contents, key, query, body) == Step(s.reply, s.entries, [])
  {
    var s := GetFilmSpec(entries, contents, key, query, body);
    if s.issued != [] {
      PutThenGet(entries, key, s.reply.value.films);
    }
  }

  /** A search without hits is Python's None: nothing is cached and the next call asks again. */
  lemma GetFilmEmptyIsNotCached(entries: map<string, Entry>, contents: Contents, key: string,
                                query: Option<FilmQuery>, body: Option<Body>)
    requires key !in entries
    requires contents.hits(FilmRequest(query, Some(EffectiveBody(body)))) == []
    ensures GetFilmSpec(entries, contents, key, query, body) ==
            Step(NotFound, entries, [FilmRequest(query, Some(EffectiveBody(body)))])
  {
  }

  // ---------------------------------------------------------------------------
  // get_film_alike
  // ---------------------------------------------------------------------------

  /** The search for the ten best-rated films of one genre. */
  function AlikeRequest(genreId: string): Request
  {
    FilmRequest(Some(AlikeQuery), Some(GenreBody(genreId)))
  }

  /** The state of the genre loop: films so far, requests so far, and the exception that ended it. */
  datatype Gather = Gather(films: seq<Film>, issued: seq<Request>, fault: Option<Fault>)

  /**
   * One iteration: `genre['id']` raises KeyError on a genre without an id;
   * otherwise the search runs and its films are appended (a hit that does
   * not validate raises). Once raised, nothing more happens.
   */
  function GatherGenre(contents: Contents, g: Gather, genre: Dict): Gather
  {
    if g.fault.Some? then g
    else if "id" !in genre then Gather(g.films, g.issued, Some(KeyError))
    else
      var request := AlikeRequest(genre["id"]);
      var alike := ToFilms(contents.hits(request));
      if alike.Found? then Gather(g.films + alike.value, g.issued + [request], None)
      else Gather(g.films, g.issued + [request], Some(alike.fault))
  }

  /** The loop over the remaining genres, from the state it has reached. */
  function GatherFrom(contents: Contents, g: Gather, genres: seq<Dict>): Gather
    decreases |genres|
  {
    if genres == [] then g else GatherFrom(contents, GatherGenre(contents, g, genres[0]), genres[1..])
  }

  /** The whole loop: from no films, no requests and no exception. */
  function Gathered(contents: Contents, genres: seq<Dict>): Gather
  {
    GatherFrom(contents, Gather([], [], None), genres)
  }

  /** The films one genre contributes when its search validates. */
  function GenreFilms(contents: Contents, genre: Dict): seq<Film>
  {
    if "id" !in genre then []
    else
      var alike := ToFilms(contents.hits(AlikeRequest(genre["id"])));
      if alike.Found? then alike.value else []
  }

  /** Independent reference: every genre's films, in genre order, duplicates kept. */
  function AlikeFilms(contents: Contents, genres: seq<Dict>): seq<Film>
  {
    if genres == [] then [] else GenreFilms(contents, genres[0]) + AlikeFilms(contents, genres[1..])
  }

  /** The requests, one per genre in order. */
  function AlikeRequests(genres: seq<Dict>): seq<Request>
    requires forall i :: 0 <= i < |genres| ==> "id" in genres[i]
  {
    if genres == [] then [] else [AlikeRequest(genres[0]["id"])] + AlikeRequests(genres[1..])
  }

  /** Whether one genre lets the loop go on: it has an id and its search validates. */
  predicate GenreClean(contents: Contents, genre: Dict)
  {
    "id" in genre && ToFilms(contents.hits(AlikeRequest(genre["id"]))).Found?
  }

  /** Whether the loop runs to the end: every genre has an id and every search validates. */
  predicate GenresClean(contents: Contents, genres: seq<Dict>)
  {
    forall i :: 0 <= i < |genres| ==> GenreClean(contents, genres[i])
  }

  lemma GenresCleanCons(contents: Contents, genres: seq<Dict>)
    requires genres != []
    ensures GenresClean(contents, genres) <==> GenreClean(contents, genres[0]) && GenresClean(contents, genres[1..])
  {
    assert forall i :: 1 <= i < |genres| ==> genres[1..][i - 1] == genres[i];
  }

  /** Once the loop has raised, the remaining genres change nothing. */
  lemma {:induction false} GatherFromKeepsFault(contents: Contents, g: Gather, genres: seq<Dict>)
    requires g.fault.Some?
    ensures GatherFrom(contents, g, genres) == g
    decreases |genres|
  {
    if genres != [] {
      GatherFromKeepsFault(contents, g, genres[1..]);
    }
  }

  /** One clean genre appends its films and its request and lets the loop go on. */
  lemma GatherGenreClean(contents: Contents, films: seq<Film>, issued: seq<Request>, genre: Dict)
    requires GenreClean(contents, genre)
    ensures GatherGenre(contents, Gather(films, issued, None), genre) ==
            Gather(films + GenreFilms(contents, genre), issued + [AlikeRequest(genre["id"])], None)
  {
  }

  /** A genre that is not clean raises. */
  lemma GatherGenreRaises(contents: Contents, films: seq<Film>, issued: seq<Request>, genre: Dict)
    requires !GenreClean(contents, genre)
    ensures GatherGenre(contents, Gather(films, issued, None), genre).fault.Some?
  {
  }

  /**
   * From any point without an exception, when the remaining genres are
   * clean, the rest of the loop appends their reference films and one
   * request per genre.
   */
  lemma {:induction false} GatherFromClean(contents: Contents, films: seq<Film>, issued: seq<Request>,
                                           genres: seq<Dict>)
    requires GenresClean(contents, genres)
    ensures GatherFrom(contents, Gather(films, issued, None), genres) ==
            Gather(films + AlikeFilms(contents, genres), issued + AlikeRequests(genres), None)
    decreases |genres|
  {
    if genres == [] {
      assert films + [] == films && issued + [] == issued;
    } else {
      var genre := genres[0];
      GenresCleanCons(contents, genres);
      GatherGenreClean(contents, films, issued, genre);
      var films' := films + GenreFilms(contents, genre);
      var issued' := issued + [AlikeRequest(genre["id"])];
      GatherFromClean(contents, films', issued', genres[1..]);
      var restFilms := AlikeFilms(contents, genres[1..]);
      var restIssued := AlikeRequests(genres[1..]);
      assert AlikeFilms(contents, genres) == GenreFilms(contents, genre) + restFilms;
      assert AlikeRequests(genres) == [AlikeRequest(genre["id"])] + restIssued;
      AppendAssoc(films, GenreFilms(contents, genre), restFilms);
      AppendAssoc(issued, [AlikeRequest(genre["id"])], restIssued);
    }
  }

  /** From any point without an exception, a remaining genre that is not clean makes the loop raise. */
  lemma {:induction false} GatherFromRaises(contents: Contents, films: seq<Film>, issued: seq<Request>,
                                            genres: seq<Dict>)
    requires !GenresClean(contents, genres)
    ensures GatherFrom(contents, Gather(films, issued, None), genres).fault.Some?
    decreases |genres|
  {
    var genre := genres[0];
    GenresCleanCons(contents, genres);
    if GenreClean(contents, genre) {
      GatherGenreClean(contents, films, issued, genre);
      GatherFromRaises(contents, films + GenreFilms(contents, genre), issued + [AlikeRequest(genre["id"])], genres[1..]);
    } else {
      GatherGenreRaises(contents, films, issued, genre);
      GatherFromKeepsFault(contents, GatherGenre(contents, Gather(films, issued, None), genre), genres[1..]);
    }
  }

  /**
   * The loop finishes without an exception exactly when every genre has an
   * id and every search validates, and then its films are the reference
   * concatenation and its requests one per genre, in order.
   */
  lemma GatheredIsConcatenation(contents: Contents, genres: seq<Dict>)
    ensures Gathered(contents, genres).fault.None? <==> GenresClean(contents, genres)
    ensures GenresClean(contents, genres) ==>
              Gathered(contents, genres).films == AlikeFilms(contents, genres) &&
              Gathered(contents, genres).issued == AlikeRequests(genres)
  {
    if GenresClean(contents, genres) {
      GatherFromClean(contents, [], [], genres);
      assert [] + AlikeFilms(contents, genres) == AlikeFilms(contents, genres);
      assert [] + AlikeRequests(genres) == AlikeRequests(genres);
    } else {
      GatherFromRaises(contents, [], [], genres);
    }
  }

  /** Two genres whose searches share a film: the film appears twice, in genre order. */
  lemma SimilarFilmsKeepDuplicates(contents: Contents, g1: Dict, g2: Dict, a: Film, b: Film, c: Film)
    requires "id" in g1 && "id" in g2
    requires contents.hits(AlikeRequest(g1["id"])) == [FilmDoc(a), FilmDoc(b)]
    requires contents.hits(AlikeRequest(g2["id"])) == [FilmDoc(b), FilmDoc(c)]
    ensures Gathered(contents, [g1, g2]).films == [a, b, b, c]
  {
    assert [g1, g2][0] == g1 && [g1, g2][1..] == [g2];
    assert [g2][0] == g2 && [g2][1..] == [];
    var r1 := ToFilms([FilmDoc(a), FilmDoc(b)]);
    assert r1.Found?;
    assert FilmDocs(r1.value) == [FilmDoc(a), FilmDoc(b)];
    assert r1.value == [a, b] by {
      assert FilmDocs(r1.value)[0] == FilmDoc(a) && FilmDocs(r1.value)[1] == FilmDoc(b);
    }
    assert GatherGenre(contents, Gather([], [], None), g1) == Gather([a, b], [AlikeRequest(g1["id"])], None);
    var r2 := ToFilms([FilmDoc(b), FilmDoc(c)]);
    assert r2.Found?;
    assert FilmDocs(r2.value) == [FilmDoc(b), FilmDoc(c)];
    assert r2.value == [b, c] by {
      assert FilmDocs(r2.value)[0] == FilmDoc(b) && FilmDocs(r2.value)[1] == FilmDoc(c);
    }
    var g1Done := Gather([a, b], [AlikeRequest(g1["id"])], None);
    var g2Done := GatherGenre(contents, g1Done, g2);
    assert g2Done.films == [a, b] + [b, c];
    assert Gathered(contents, [g1, g2]) == GatherFrom(contents, g1Done, [g2]);
    assert GatherFrom(contents, g1Done, [g2]) == GatherFrom(contents, g2Done, []);
  }

  /**
   * `get_film_alike(film_id, key)`. A truthy cached value under `key` is the
   * answer. Otherwise the source film is read with `get_film(film_id, body=
   * match _id)` (so it is cached under the raw film id); a missing source
   * (None) or a single cached film cannot be indexed and raises TypeError,
   * as does a film without genres; after the genre loop the concatenated
   * list, empty or not, is written under `key` and returned.
   */
  function GetFilmAlikeSpec(entries: map<string, Entry>, contents: Contents, filmId: string,
                            key: string): (s: Step<FilmValue>)
    ensures s.reply.Found? && s.reply.value.OneFilm? ==> s.issued == [] && s.entries == entries
    ensures var c := CachedFilm(entries, key);
            c.Raised? || (c.Found? && Truthy(c.value)) ==> s == Step(c, entries, [])
    ensures var c := CachedFilm(entries, key);
            !(c.Raised? || (c.Found? && Truthy(c.value))) && s.reply.Found? ==>
              s.reply.value.Films? && key in s.entries &&
              s.entries[key] == Entry(Encode(s.reply.value), FilmCacheExpireInSeconds)
  {
    var cached := CachedFilm(entries, key);
    if cached.Raised? || (cached.Found? && Truthy(cached.value)) then Step(cached, entries, [])
    else
      var source := GetFilmSpec(entries, contents, filmId, None, Some(SourceFilmBody(filmId)));
      var rest := AlikeAfterSource(source.entries, contents, key, source.reply);
      Step(rest.reply, rest.entries, source.issued + rest.issued)
  }

  /**
   * What `get_film_alike` does once `get_film` has answered `source`: an
   * exception propagates; None or a single film cannot be indexed and
   * raises TypeError, as does a film without genres; otherwise the genre
   * loop runs and, when it completes, its list is cached under `key`.
   */
  function AlikeAfterSource(entries: map<string, Entry>, contents: Contents, key: string,
                            source: Reply<FilmValue>): (s: Step<FilmValue>)
    requires source.Found? ==> Truthy(source.value)
    ensures s.reply.Found? ==> s.reply.value.Films?
    ensures !s.reply.Found? ==> s.entries == entries
  {
    if source.Raised? then Step(source, entries, [])
    else if source.NotFound? || source.value.OneFilm? then Step(Raised(TypeError), entries, [])
    else if source.value.films[0].genre.None? then Step(Raised(TypeError), entries, [])
    else
      var g := Gathered(contents, source.value.films[0].genre.value);
      if g.fault.Some? then Step(Raised(g.fault.value), entries, g.issued)
      else Step(Found(Films(g.films)), entries[key := Entry(Encode(Films(g.films)), FilmCacheExpireInSeconds)],
                g.issued)
  }

  /**
   * Warm read: once `get_film_alike` has returned a non-empty list (or a
   * cached single film), the same call is answered from the cache, with no
   * request and no write.
   */
  lemma {:induction false} AlikeWarmRead(entries: map<string, Entry>, contents: Contents, filmId: string,
                                         key: string)
    requires GetFilmAlikeSpec(entries, contents, filmId, key).reply.Found?
    requires Truthy(GetFilmAlikeSpec(entries, contents, filmId, key).reply.value)
    ensures var s := GetFilmAlikeSpec(entries, contents, filmId, key);
            GetFilmAlikeSpec(s.entries, contents, filmId, key) == Step(s.reply, s.entries, [])
  {
    var s := GetFilmAlikeSpec(entries, contents, filmId, key);
    var cached := CachedFilm(entries, key);
    if !(cached.Raised? || (cached.Found? && Truthy(cached.value))) {
      PutThenGet(s.entries, key, s.reply.value.films);
      assert s.entries[key := Entry(Encode(s.reply.value), FilmCacheExpireInSeconds)] == s.entries;
    }
  }

  /**
   * The answer of a completed miss: the reference concatenation of the
   * source film's genres' best-rated films, cached under `key` for ten
   * seconds, after one search per genre.
   */
  lemma AlikeMissIsConcatenation(entries: map<string, Entry>, contents: Contents, filmId: string,
                                 key: string, films: seq<Film>, genres: seq<Dict>)
    requires !(CachedFilm(entries, key).Raised? || (CachedFilm(entries, key).Found? && Truthy(CachedFilm(entries, key).value)))
    requires GetFilmSpec(entries, contents, filmId, None, Some(SourceFilmBody(filmId))).reply == Found(Films(films))
    requires films[0].genre == Some(genres)
    requires GenresClean(contents, genres)
    ensures var source := GetFilmSpec(entries, contents, filmId, None, Some(SourceFilmBody(filmId)));
            var s := GetFilmAlikeSpec(entries, contents, filmId, key);
            s.reply == Found(Films(AlikeFilms(contents, genres))) &&
            s.entries == source.entries[key := Entry(Many(FilmDocs(AlikeFilms(contents, genres))), FilmCacheExpireInSeconds)] &&
            s.issued == source.issued + AlikeRequests(genres)
  {
    GatheredIsConcatenation(contents, genres);
  }

  /** A source film the index does not hold makes `get_films[0]` raise TypeError; `key` is not written. */
  lemma AlikeMissingSourceRaises(entries: map<string, Entry>, contents: Contents, filmId: string, key: string)
    requires key !in entries && filmId !in entries
    requires contents.hits(FilmRequest(None, Some(SourceFilmBody(filmId)))) == []
    ensures GetFilmAlikeSpec(entries, contents, filmId, key) ==
            Step(Raised(TypeError), entries, [FilmRequest(None, Some(SourceFilmBody(filmId)))])
  {
  }

  /**
   * A cached empty aggregate is falsy, so it counts as a miss: the call
   * answers and queries exactly as it would with nothing cached under `key`.
   */
  lemma {:induction false} AlikeEmptyCacheIsMiss(entries: map<string, Entry>, contents: Contents,
                                                 filmId: string, key: string)
    requires CachedFilm(entries, key) == Found(Films([]))
    ensures GetFilmAlikeSpec(entries, contents, filmId, key).reply ==
            GetFilmAlikeSpec(entries - {key}, contents, filmId, key).reply
    ensures GetFilmAlikeSpec(entries, contents, filmId, key).issued ==
            GetFilmAlikeSpec(entries - {key}, contents, filmId, key).issued
  {
    var body := Some(SourceFilmBody(filmId));
    var s1 := GetFilmSpec(entries, contents, filmId, None, body);
    var s2 := GetFilmSpec(entries - {key}, contents, filmId, None, body);
    assert CachedFilm(entries - {key}, key) == NotFound;
    if key == filmId {
      GetFilmSpecSameMiss(entries, entries - {key}, contents, filmId, None, body);
    } else {
      assert CachedFilm(entries - {key}, filmId) == CachedFilm(entries, filmId);
    }
    assert s1.reply == s2.reply && s1.issued == s2.issued;
    var r1 := AlikeAfterSource(s1.entries, contents, key, s1.reply);
    var r2 := AlikeAfterSource(s2.entries, contents, key, s2.reply);
    AlikeAfterSourceIgnoresEntries(s1.entries, s2.entries, contents, key, s1.reply);
    assert GetFilmAlikeSpec(entries, contents, filmId, key) == Step(r1.reply, r1.entries, s1.issued + r1.issued);
    assert GetFilmAlikeSpec(entries - {key}, contents, filmId, key) ==
           Step(r2.reply, r2.entries, s2.issued + r2.issued);
  }

  /** Two caches that both miss on `key` give `get_film` the same answer and the same searches. */
  lemma GetFilmSpecSameMiss(e1: map<string, Entry>, e2: map<string, Entry>, contents: Contents, key: string,
                            query: Option<FilmQuery>, body: Option<Body>)
    requires var c := CachedFilm(e1, key); !c.Raised? && !(c.Found? && Truthy(c.value))
    requires var c := CachedFilm(e2, key); !c.Raised? && !(c.Found? && Truthy(c.value))
    ensures GetFilmSpec(e1, contents, key, query, body).reply == GetFilmSpec(e2, contents, key, query, body).reply
    ensures GetFilmSpec(e1, contents, key, query, body).issued == GetFilmSpec(e2, contents, key, query, body).issued
  {
  }

  /** The genre stage's answer and searches do not depend on the cache. */
  lemma AlikeAfterSourceIgnoresEntries(e1: map<string, Entry>, e2: map<string, Entry>, contents: Contents,
                                       key: string, source: Reply<FilmValue>)
    requires source.Found? ==> Truthy(source.value)
    ensures AlikeAfterSource(e1, contents, key, source).reply == AlikeAfterSource(e2, contents, key, source).reply
    ensures AlikeAfterSource(e1, contents, key, source).issued == AlikeAfterSource(e2, contents, key, source).issued
  {
  }

  /** A completed miss whose result is empty caches the empty list, so the next call recomputes. */
  lemma AlikeEmptyResultIsRecomputed(entries: map<string, Entry>, contents: Contents, filmId: string, key: string)
    requires GetFilmAlikeSpec(entries, contents, filmId, key).reply == Found(Films([]))
    ensures var s := GetFilmAlikeSpec(entries, contents, filmId, key);
            s.entries[key] == Entry(Many([]), FilmCacheExpireInSeconds) &&
            CachedFilm(s.entries, key) == Found(Films([])) &&
            GetFilmAlikeSpec(s.entries, contents, filmId, key).reply ==
            GetFilmAlikeSpec(s.entries - {key}, contents, filmId, key).reply
  {
    var s := GetFilmAlikeSpec(entries, contents, filmId, key);
    PutThenGet(entries, key, []);
    assert s.entries == s.entries[key := Entry(Encode(Films([])), FilmCacheExpireInSeconds)];
    PutThenGet(s.entries, key, []);
    AlikeEmptyCacheIsMiss(s.entries, contents, filmId, key);
  }

  // ---------------------------------------------------------------------------
  // The service object
  // ---------------------------------------------------------------------------

  class FilmService {
    const cache: RedisCache

    constructor (redis: Redis, elastic: Elastic)
      ensures cache.redis == redis && cache.elastic == elastic
    {
      cache := new RedisCache(redis, elastic);
    }

    method GetFilm(key: string, query: Option<FilmQuery>, body: Option<Body>) returns (r: Reply<FilmValue>)
      modifies cache.redis, cache.elastic
      ensures var s := GetFilmSpec(old(cache.redis.entries), cache.elastic.contents, key, query, body);
              r == s.reply && cache.redis.entries == s.entries &&
              cache.elastic.log == old(cache.elastic.log) + s.issued
    {
      ghost var entries := cache.redis.entries;
      ghost var request := FilmRequest(query, Some(EffectiveBody(body)));
      ghost var s := GetFilmSpec(entries, cache.elastic.contents, key, query, body);
      r := cache.GetFilmSortedFromCache(key);
      if r.Raised? || (r.Found? && Truthy(r.value)) {
        assert s == Step(r, entries, []);
        return;
      }
      var effective := body;
      if effective.None? || |effective.value| == 0 {
        effective := Some(MatchAllBody());
      }
      assert effective == Some(EffectiveBody(body));
      var films := GetFilmBySearchFromElastic(query, effective);
      if films.Raised? {
        r := Raised(films.fault);
        assert s == Step(r, entries, [request]);
        return;
      }
      if |films.value| == 0 {
        r := NotFound;
        assert s == Step(r, entries, [request]);
        return;
      }
      cache.PutFilmToCache(key, films.value);
      r := Found(Films(films.value));
      assert s == Step(r, entries[key := Entry(Encode(r.value), FilmCacheExpireInSeconds)], [request]);
    }

    method GetFilmAlike(filmId: string, key: string) returns (r: Reply<FilmValue>)
      modifies cache.redis, cache.elastic
      ensures var s := GetFilmAlikeSpec(old(cache.redis.entries), cache.elastic.contents, filmId, key);
              r == s.reply && cache.redis.entries == s.entries &&
              cache.elastic.log == old(cache.elastic.log) + s.issued
    {
      r := cache.GetFilmSortedFromCache(key);
      if r.Raised? || (r.Found? && Truthy(r.value)) {
        return;
      }
      ghost var log0 := cache.elastic.log;
      var getFilms := GetFilm(filmId, None, Some(SourceFilmBody(filmId)));
      ghost var log1 := cache.elastic.log;
      r := AlikeFromSource(getFilms, key);
      AppendAssoc(log0, log1[|log0|..], cache.elastic.log[|log1|..]);
    }

    /** The rest of `get_film_alike`, once `get_film` has answered `getFilms`. */
    method AlikeFromSource(getFilms: Reply<FilmValue>, key: string) returns (r: Reply<FilmValue>)
      requires getFilms.Found? ==> Truthy(getFilms.value)
      modifies cache.redis, cache.elastic
      ensures var s := AlikeAfterSource(old(cache.redis.entries), cache.elastic.contents, key, getFilms);
              r == s.reply && cache.redis.entries == s.entries &&
              cache.elastic.log == old(cache.elastic.log) + s.issued
    {
      if getFilms.Raised? {
        return getFilms;
      }
      if getFilms.NotFound? || getFilms.value.OneFilm? {
        return Raised(TypeError);
      }
      var film := getFilms.value.films[0];
      if film.genre.None? {
        return Raised(TypeError);
      }
      var filmList, fault := CollectAlike(film.genre.value);
      if fault.Some? {
        return Raised(fault.value);
      }
      cache.PutFilmToCache(key, filmList);
      r := Found(Films(filmList));
    }

    /** The loop over the source film's genres, one search of the ten best-rated films per genre. */
    method CollectAlike(genres: seq<Dict>) returns (filmList: seq<Film>, fault: Option<Fault>)
      modifies cache.elastic
      ensures var g := Gathered(cache.elastic.contents, genres);
              filmList == g.films && fault == g.fault && cache.elastic.log == old(cache.elastic.log) + g.issued
    {
      filmList := [];
      fault := None;
      ghost var issued: seq<Request> := [];
      ghost var log0 := cache.elastic.log;
      ghost var contents := cache.elastic.contents;
      for i := 0 to |genres|
        invariant contents == cache.elastic.contents
        invariant cache.elastic.log == log0 + issued
        invariant GatherFrom(contents, Gather(filmList, issued, None), genres[i..]) == Gathered(contents, genres)
      {
        var genre := genres[i];
        assert genres[i..][0] == genre && genres[i..][1..] == genres[i + 1..];
        if "id" !in genre {
          GatherFromKeepsFault(contents, Gather(filmList, issued, Some(KeyError)), genres[i + 1..]);
          return filmList, Some(KeyError);
        }
        var request := AlikeRequest(genre["id"]);
        var alikeFilms := GetFilmBySearchFromElastic(Some(AlikeQuery), Some(GenreBody(genre["id"])));
        issued := issued + [request];
        if alikeFilms.Raised? {
          GatherFromKeepsFault(contents, Gather(filmList, issued, Some(alikeFilms.fault)), genres[i + 1..]);
          return filmList, Some(alikeFilms.fault);
        }
        if |alikeFilms.value| > 0 {
          filmList := filmList + alikeFilms.value;
        } else {
          assert filmList + alikeFilms.value == filmList;
        }
      }
    }

    /** The search with one film model per hit, in hit order; a hit that does not validate raises. */
    method GetFilmBySearchFromElastic(query: Option<FilmQuery>, body: Option<Body>) returns (r: Reply<seq<Film>>)
      modifies cache.elastic
      ensures r == ToFilms(cache.elastic.contents.hits(FilmRequest(query, body)))
      ensures cache.elastic.log == old(cache.elastic.log) + [FilmRequest(query, body)]
    {
      var size := if query.Some? then Some(query.value.pageSize) else None;
      var from := if query.Some? then Some(query.value.pageNumber * query.value.pageSize) else None;
      var sort := if query.Some? then Some(query.value.sortField + ":" + query.value.sortType) else None;
      var hits := cache.elastic.Search(MoviesIndex, body, size, from, sort);
      var result: seq<Film> := [];
      for i := 0 to |hits|
        invariant |result| == i
        invariant forall j :: 0 <= j < i ==> hits[j] == FilmDoc(result[j])
      {
        if !hits[i].FilmDoc? {
          return Raised(ValidationError);
        }
        result := result + [hits[i].film];
      }
      r := Found(result);
      assert r == ToFilms(hits) by {
        var t := ToFilms(hits);
        assert forall j :: 0 <= j < |hits| ==> hits[j].FilmDoc?;
        assert t.Found?;
        assert |t.value| == |result|;
        forall j | 0 <= j < |result| ensures t.value[j] == result[j] {
          assert FilmDocs(t.value)[j] == hits[j];
          assert FilmDoc(t.value[j]) == FilmDoc(result[j]);
        }
        assert t.value == result;
      }
    }
  }
}
