# Cache-aside read path of a film catalogue API, in Dafny

This project models the service layer of an asynchronous film catalogue
API (FastAPI over Elasticsearch, with Redis as a read cache) and the
PostgreSQL loaders that feed the index.

* **Cache-aside protocol** (`Protocol`, `BaseServices`). A service reads
  Redis first. A cached value that decodes and is truthy is the answer;
  a cached value that does not decode raises ValidationError, with no index
  query. Otherwise the service queries Elasticsearch. An empty answer is Python's
  `None` and is not cached. A non-empty answer is written back with the
  entity's expiry and returned. The base service has three operations of
  this shape: by id, by search text and by page. Their keys are the raw id,
  `"{prefix}:{search_string}"` and `"{prefix}:{page_number}:{page_size}"`.
* **Person and genre services** (`PersonServices`, `GenreServices`): the
  protocol for persons (index `person`, list prefix `persons`, search field
  `full_name`) and for genres (index and prefix `genre`). Both use a TTL of
  300 seconds.
* **Film cache and film service** (`FilmCache`, `FilmServices`). The caller
  supplies the cache key. A payload is decoded as a list of films first and
  as a single film only if that fails. The TTL is 10 seconds.
  `get_film_alike` reads the source film, runs one search per genre of that
  film and caches the concatenation of the results, even when it is empty.
* **ETL loaders** (`SqlText`, `Postgres`, `GenreLoading`,
  `FilmWorkLoading`, `EtlFilmWorkLoading`). With saved state, a
  `updated_at > '<state>'` clause is spliced into an SQL template just before
  the last occurrence of a marker, using `rfind` and Python slicing. The
  ETL variant first substitutes a sub-query with `%`. The rows are fetched
  a hundred at a time and one dict per row is appended to `data`, which is
  never reset.

Redis is a class holding a `map` from key to payload and expiry. The
Elasticsearch index is a fixed answer per request, and every request the
services issue is appended to a log, so "no index query" means "the log
did not grow". A PostgreSQL cursor is a fixed answer per query text plus
the rows not fetched yet. Python's outcomes are `Found`, `NotFound` (for
`None`) and `Raised` with the exception's class. Each service method is a
method on these objects. Its postcondition ties the reply, the new cache
and the issued requests to a specification function of the old state. The
lemmas state what the protocol promises about those functions.

## Model

| member | source | states |
|---|---|---|
| Models.ToModels | src/models/models.py:19-49 | Building models from index sources succeeds exactly when every source has the model's required fields (is of the model's kind), keeps all of them in order, and otherwise raises ValidationError |
| Models.ToModel | src/services/base.py:37 | `Model(**source)` succeeds exactly when the source is of the model's kind, and gives back that document; otherwise ValidationError |
| ElasticSearch.Elastic.Get | src/services/base.py:36 | One `get` is logged; the answer is the stored source for the id, None when absent |
| ElasticSearch.Elastic.Search | src/services/base.py:66-75 | One search request is logged; the answer is its hits |
| Serialization.ParseOne | src/services/base.py:32 | `Model.parse_raw` succeeds exactly on a single document of the model's kind and gives back that document; otherwise ValidationError |
| Serialization.ParseList | src/services/base.py:62 | `parse_raw_as(list[Model])` succeeds exactly on a list whose documents are all of the model's kind and gives back that list; otherwise ValidationError |
| RedisStore.Redis.Get | src/services/base.py:29 | A read returns the payload stored under the key, None when the key is absent |
| RedisStore.Redis.Set | src/services/base.py:40 | A write replaces the entry of exactly one key, with its expiry |
| CacheKeys.NatDecimal | src/services/base.py:105 | `str` of a natural number is a non-empty string of digits, one digit exactly below ten |
| CacheKeys.IntDecimal | src/services/base.py:105 | `str(n)` is non-empty: a digit or a minus sign, then digits only |
| CacheKeys.NatDecimalRoundTrip | src/services/base.py:105 | Reading back the digits of `str(n)` gives n |
| CacheKeys.IntDecimalHasNoColon | src/services/base.py:105 | `str` of an int never contains the key separator `:` |
| CacheKeys.IntDecimalSign | src/services/base.py:105 | `str(n)` starts with a minus sign exactly when n is negative |
| CacheKeys.IntDecimalRoundTrip | src/services/base.py:105 | Reading back `str(n)`, minus sign included, gives n for every int |
| CacheKeys.IntDecimalInjective | src/services/base.py:105 | Different ints have different `str` |
| CacheKeys.SearchKey | src/services/base.py:59 | The key is the prefix, one colon, and the search string, so the prefix and the search string can be read back at fixed positions |
| CacheKeys.ListKey | src/services/base.py:105 | A list key is the prefix and a colon, then a rest whose first colon splits it into two decimals that read back as the page number and the page size |
| CacheKeys.SearchKeyInjective | src/services/base.py:59 | Under one prefix, search keys are equal exactly when the search strings are |
| CacheKeys.ListKeyInjective | src/services/base.py:105 | Under one prefix, list keys are equal exactly when page number and page size both are |
| CacheKeys.SearchKeyCollidesWithListKey | src/services/base.py:59 | A search for the text "n:m" uses the key of list page n of size m under the same prefix |
| CacheKeys.SearchZeroTwentyIsFirstListPage | src/services/base.py:105 | Searching "0:20" uses the key of page 0 of size 20 |
| Protocol.CacheAside | src/services/base.py:17-25 | A truthy cached value is returned with no index request and no write. Otherwise exactly one request is issued. A truthy result is written under its key with the expiry and returned. A falsy result is None and writes nothing. An exception propagates and writes nothing. On a miss, an exception or a truthy result is exactly the reply. Every returned value is truthy |
| BaseServices.CachedOne | src/services/base.py:27-32 | None exactly when the key is absent. A parsed model is the single document cached under the key and is of the service's kind. Any other payload raises ValidationError |
| BaseServices.CachedList | src/services/base.py:56-62 | None exactly when the key is absent. A parsed list is the list cached under the key, every document of the service's kind. Any other payload raises ValidationError |
| BaseServices.FetchedOne | src/services/base.py:34-37 | None exactly when the index holds no source for the id. A model is that source, of the service's kind; a source of another kind raises ValidationError |
| BaseServices.ById | src/services/base.py:17-40 | The cache answers, with no request and no write, exactly when the cached read is not None. Otherwise one `get` on the index is issued and its outcome is the reply. A model found is written under its own id with the expiry; None and exceptions write nothing |
| BaseServices.BySearch | src/services/base.py:42-86 | The cache answers exactly when the cached read raises or is a non-empty list. Otherwise one fuzzy search is issued. An exception is the reply; a non-empty list is the reply and is written under `prefix:search_string`; no hits give None and no write. The request (`SearchRequest`, `SearchBody`) is a fuzzy `match` of the search text on the search field |
| BaseServices.PagedList | src/services/base.py:87-129 | The cache answers exactly when the cached read raises or is a non-empty list. Otherwise one page request is issued. An exception is the reply; a non-empty list is the reply and is written under `prefix:page_number:page_size`; an empty page gives None and no write. The request (`ListRequest`) carries the page body of `ListBody` |
| BaseServices.ListBody | src/services/base.py:112-114 | The page body holds `from = page_number * page_size` and `size = page_size`, merged with a non-empty query whose keys win |
| BaseServices.ByIdWarmRead | src/services/base.py:17-40 | After a by-id read found a model whose id is the requested id, the same read is answered from the cache: same model, no index request, no write |
| BaseServices.ByIdWriteKeyIsModelId | src/services/base.py:24-40 | A miss is written under the found model's id, so when that differs from the requested id the next read of that id queries the index again |
| BaseServices.ByIdNotFoundIsNotCached | src/services/base.py:20-23 | A by-id read that found nothing leaves the cache unchanged, and repeating it queries the index again |
| BaseServices.ByIdKindsShareKeys | src/services/base.py:29-40 | Once one kind has cached a model under its id, a service of another kind reading that id fails validation on the cached payload and never queries its index |
| BaseServices.ByIdWriteBreaksSearch | src/services/base.py:39-62 | A model whose id is spelled `prefix:text` is cached where a search for `text` under `prefix` reads. That search, of any kind, then raises ValidationError on the single cached document, with no index request and no write |
| BaseServices.BySearchWarmRead | src/services/base.py:42-86 | A search that returned a list is answered from the cache the next time, with no index request |
| BaseServices.PagedListWarmRead | src/services/base.py:87-129 | A page that was returned is answered from the cache the next time, with no index request |
| BaseServices.BySearchEmptyIsNotCached | src/services/base.py:45-49 | A search with no hits returns None after one index request and caches nothing |
| BaseServices.SearchAfterListReturnsPage | src/services/base.py:59 | After page 0 of size 20 was cached, a search for "0:20" under the same prefix returns that page from the cache |
| BaseServices.MapHits | src/services/base.py:76-79 | One model per hit, in hit order; the first hit that does not validate raises |
| BaseServices.BaseService.GetById | src/services/base.py:17-25 | Reply, new cache and issued requests are those of the by-id protocol on the old cache |
| BaseServices.BaseService.GetByIdFromCache | src/services/base.py:27-32 | The cached payload under the raw id, parsed as the model; None when absent |
| BaseServices.BaseService.GetByIdFromElastic | src/services/base.py:34-37 | One `get` on the service's index; the stored source built into the model |
| BaseServices.BaseService.PutByIdToCache | src/services/base.py:39-40 | Writes the model under its own id with the given expiry and nothing else |
| BaseServices.BaseService.GetBySearch | src/services/base.py:42-54 | Reply, new cache and issued requests are those of the search protocol with the index name as prefix |
| BaseServices.BaseService.GetBySearchFromCache | src/services/base.py:56-62 | The list cached under `prefix:search_string`; None when absent |
| BaseServices.BaseService.GetBySearchFromElastic | src/services/base.py:64-79 | One fuzzy search request; the hits mapped to models in order |
| BaseServices.BaseService.PutBySearchToCache | src/services/base.py:81-86 | Writes the list under `prefix:search_string` and nothing else |
| BaseServices.BaseService.GetList | src/services/base.py:87-99 | Reply, new cache and issued requests are those of the page protocol with the index name as prefix |
| BaseServices.BaseService.GetListFromCache | src/services/base.py:102-108 | The list cached under `prefix:page_number:page_size`; None when absent |
| BaseServices.BaseService.GetListFromElastic | src/services/base.py:110-122 | One request with the page body; the hits mapped to models in order |
| BaseServices.BaseService.PutListToCache | src/services/base.py:124-129 | Writes the list under `prefix:page_number:page_size` and nothing else |
| PersonServices.PersonListAndSearchKeysDiffer | src/services/person.py:28-58 | Person list keys (`persons:…`) and person search keys (`person:…`) never coincide |
| PersonServices.PersonSearchIgnoresListWrites | src/services/person.py:28-58 | Caching a person page never changes what a person search reads from the cache |
| PersonServices.PersonService.GetById | src/services/person.py:17-26 | The by-id protocol on index `person` with a TTL of 300 seconds |
| PersonServices.PersonService.GetPersonList | src/services/person.py:28-42 | The page protocol reading and writing `persons:n:m` and querying index `person`, TTL 300 |
| PersonServices.PersonService.GetBySearch | src/services/person.py:44-58 | The search protocol on `person:text`, matching `full_name`, TTL 300 |
| GenreServices.GenreListWriteKey | src/services/genre.py:22-34 | A genre page found in the index is cached under `genre:n:m` for 300 seconds |
| GenreServices.GenreService.GetById | src/services/genre.py:17-20 | The by-id protocol on index `genre` with a TTL of 300 seconds |
| GenreServices.GenreService.GetGenreList | src/services/genre.py:22-34 | The page protocol on prefix and index `genre`, TTL 300 |
| FilmCache.FilmDocs | src/services/redis_cache.py:30 | The documents of a film list, one per film in order |
| FilmCache.Encode | src/services/redis_cache.py:30 | A list of films is stored as a list payload and a single film as a single document; both decode again as films |
| FilmCache.Truthy | src/services/film.py:17 | A value is truthy exactly when it is not stored as the empty list |
| FilmCache.ToFilms | src/services/film.py:56-59 | `Film(**source)` per hit succeeds exactly when every hit is a film, and the films are the hits in order; otherwise ValidationError |
| FilmCache.DecodeFilm | src/services/redis_cache.py:24-27 | Decoding succeeds exactly on a list of films or, failing that, a single film. A list decodes to a list and a single film to a single film. Re-encoding the result gives back the payload |
| FilmCache.PutThenGet | src/services/redis_cache.py:20-30 | What `_put_film_to_cache` writes under a key, the empty list included, is what the next read of that key decodes |
| FilmCache.RedisCache.GetFilmSortedFromCache | src/services/redis_cache.py:20-27 | The payload under the key decoded list-first; None when absent, as the specification function `CachedFilm` states |
| FilmCache.CachedFilm | src/services/redis_cache.py:20-27 | None exactly when the key is absent. A decoded value re-encodes to the cached payload. Anything else raises ValidationError |
| FilmCache.RedisCache.PutFilmToCache | src/services/redis_cache.py:29-30 | Writes the list under exactly the given key with a TTL of 10 seconds |
| FilmServices.FilmRequest | src/services/film.py:49-55 | Index `movies` and the given body; size, `from = page_number * page_size` and `sort = field:direction` from the query, all absent without one |
| FilmServices.EffectiveBody | src/services/film.py:18-19 | A missing or empty body becomes `match_all`; a non-empty body is kept; `MatchAllBody` is that default |
| FilmServices.GetFilmSpec | src/services/film.py:15-24 | The cache answers, with no request and no write, exactly when the decoded value raises or is truthy. Otherwise one search is issued with the given query and the body, or `match_all` when that is empty. A non-empty list of films is returned and written under the caller's key with a TTL of 10 seconds. No hits give None, and an exception propagates; neither writes. Every returned value is truthy |
| FilmServices.GetFilmWarmRead | src/services/film.py:15-24 | After `get_film` returned something, the same call is answered from the cache with no index request |
| FilmServices.GetFilmEmptyIsNotCached | src/services/film.py:20-22 | A search with no hits returns None after one request and caches nothing |
| FilmServices.GatherFromClean | src/services/film.py:33-43 | From any point without exception, when every remaining genre has an id and a search that validates, the rest of the loop appends their films in genre order and one search per genre; each search uses the `genre.id` match of `GenreBody`, and `GatherFrom` is the loop over the remaining genres |
| FilmServices.GatherFromRaises | src/services/film.py:33-43 | From any point without exception, a remaining genre without an id or with a search that does not validate makes the loop raise |
| FilmServices.GatheredIsConcatenation | src/services/film.py:33-43 | The genre loop ends without exception exactly when every genre has an id and every search validates. Its films are then each genre's films concatenated in genre order, and its requests are one per genre; `Gathered` is the loop from its start and `AlikeFilms` the reference concatenation |
| FilmServices.GatherFromKeepsFault | src/services/film.py:33-43 | Once a genre raised, the remaining genres change nothing |
| FilmServices.SimilarFilmsKeepDuplicates | src/services/film.py:42-43 | Genres answering [A, B] and [B, C] give [A, B, B, C]: duplicates are kept |
| FilmServices.GetFilmAlikeSpec | src/services/film.py:26-46 | A cached value that raises or is truthy is the reply, with no request and no write. In particular, a single film is only ever returned from the cache. A list returned on a miss is written under the key with a TTL of 10 seconds |
| FilmServices.AlikeWarmRead | src/services/film.py:27-28 | Once a call returned a non-empty list or a single film, the same call is answered from the cache with no request and no write |
| FilmServices.AlikeAfterSource | src/services/film.py:31-44 | After the source read, only a list is ever returned, and a call that returns no list leaves the cache as the source read left it |
| FilmServices.AlikeAfterSourceIgnoresEntries | src/services/film.py:31-43 | The genre stage's reply and searches do not depend on what the cache holds |
| FilmServices.GetFilmSpecSameMiss | src/services/film.py:15-24 | Two caches that both miss on the key give `get_film` the same reply and the same searches |
| FilmServices.AlikeMissIsConcatenation | src/services/film.py:26-46 | On a miss whose loop completes, the reply is the concatenation of the source film's genres' films. It is cached under the key for 10 seconds, after the source read's requests plus one search per genre |
| FilmServices.AlikeMissingSourceRaises | src/services/film.py:30-31 | A source film the index does not hold makes `get_films[0]` raise TypeError; the key is not written |
| FilmServices.AlikeEmptyCacheIsMiss | src/services/film.py:27-28 | A cached empty list is a miss: reply and requests are as if the key were absent |
| FilmServices.AlikeEmptyResultIsRecomputed | src/services/film.py:27-44 | An empty aggregate is cached as an empty list, and the next call recomputes instead of answering from the cache |
| FilmServices.FilmService.GetFilm | src/services/film.py:15-24 | Reply, new cache and issued requests are those of `GetFilmSpec` on the old cache |
| FilmServices.FilmService.GetFilmAlike | src/services/film.py:26-46 | Reply, new cache and issued requests are those of `GetFilmAlikeSpec` on the old cache |
| FilmServices.FilmService.AlikeFromSource | src/services/film.py:31-44 | Reply, new cache and issued requests are those of `AlikeAfterSource` for the source read's reply |
| FilmServices.FilmService.CollectAlike | src/services/film.py:33-43 | The films, the exception and the requests of the genre loop are those of its specification |
| FilmServices.FilmService.GetFilmBySearchFromElastic | src/services/film.py:48-59 | One request to `movies`; the hits mapped to films in order, ValidationError on the first hit that is not a film |
| SqlText.RfindFrom | src/services/pq_loader_genre.py:20 | The highest start of the marker at or below the bound, -1 exactly when there is none |
| SqlText.Rfind | src/services/pq_loader_genre.py:20 | `rfind` gives the last occurrence of the marker, -1 exactly when it does not occur |
| SqlText.SliceBound | src/services/pq_loader_genre.py:21 | A slice index in range is kept, a negative one counts from the end, and anything beyond is clamped |
| SqlText.SpliceBeforeLast | src/services/pq_loader_genre.py:20-21 | The clause is inserted just before the last occurrence of the marker, or before the last character when it is absent. Both sides are kept, the marker follows the clause, and the length grows by exactly the clause |
| SqlText.Prefixed | src/services/etl/pq_loader_film_work.py:27 | Formatted text with a literal prefix; exceptions pass through |
| SqlText.PrefixedTwice | src/services/etl/pq_loader_film_work.py:27 | Prefixing twice is prefixing with the concatenation |
| SqlText.FormatFrom | src/services/etl/pq_loader_film_work.py:27 | `%` formatting never yields None; it raises only TypeError or ValueError |
| SqlText.Format | src/services/etl/pq_loader_film_work.py:36 | `template % text` never yields None and raises only TypeError or ValueError; a formatted result contains the argument, so it is never shorter than it |
| SqlText.FormatFromPlain | src/services/etl/pq_loader_film_work.py:27 | Template text without `%` is copied through unchanged |
| SqlText.FormatOnePlaceholder | src/services/etl/pq_loader_film_work.py:27 | A template with one `%s` and no other `%` is the argument substituted at that place |
| SqlText.FormatEscapedPercent | src/services/etl/pq_loader_film_work.py:27 | `%%` in a template becomes a single `%`, and the `%s` after it is still the argument |
| SqlText.FormatWithoutPlaceholderRaises | src/services/etl/pq_loader_film_work.py:27 | A template without `%s` raises TypeError (not all arguments converted) |
| SqlText.FormatTwoPlaceholdersRaises | src/services/etl/pq_loader_film_work.py:27 | A template with two `%s` raises TypeError (not enough arguments) |
| Postgres.MapRows | src/services/pq_loader_genre.py:32-38 | One record per row, in row order |
| Postgres.MapRowsCons | src/services/pq_loader_genre.py:32-38 | The first row's record comes first, then the records of the rest |
| Postgres.MapRowsAppend | src/services/pq_loader_genre.py:27-38 | Mapping two batches one after the other maps their concatenation |
| Postgres.Cursor.Execute | src/services/pq_loader_genre.py:25 | Query text becomes the pending rows and is logged; a pair of texts raises TypeError and changes nothing |
| Postgres.Cursor.FetchMany | src/services/pq_loader_genre.py:28 | The next `size` pending rows, fewer at the end and none when exhausted; they leave the pending rows |
| GenreLoading.GenreRecord | src/services/pq_loader_genre.py:33-38 | The dict of a row holds exactly `id`, `name` and `description`, taken from the row's columns (None when missing) |
| GenreLoading.WhereUpdatedSince | src/services/pq_loader_genre.py:21 | The clause holds the saved state verbatim between single quotes, at a fixed position after `WHERE updated_at >` |
| GenreLoading.PostgresLoader.LoadGenre | src/services/pq_loader_genre.py:17-21 | Without state, the template unchanged. Otherwise `WHERE updated_at > '<state>'` is inserted just before the last `content.genre`, or before the last character without one, and the length grows by the clause |
| GenreLoading.PostgresLoader.Loader | src/services/pq_loader_genre.py:23-40 | The query is executed once and all its rows consumed. One genre dict per row is appended to `data`, in order, after what earlier calls left. The result is `data` |
| FilmWorkLoading.FilmWorkRecordFields | src/services/pq_loader_film_work.py:41-53 | `rating` reappears as `imdb_rating` and `genre` as `genres_names`; the other columns keep their names |
| FilmWorkLoading.FilmWorkRecordKeys | src/services/pq_loader_film_work.py:41-53 | The renamed columns `rating` and `genre` do not appear in the dict under their column names |
| FilmWorkLoading.AndUpdatedSince | src/services/pq_loader_film_work.py:29 | The clause holds the saved state verbatim between single quotes, at a fixed position after `AND updated_at >` |
| FilmWorkLoading.PostgresLoader.LoadFilmWorkId | src/services/pq_loader_film_work.py:23-29 | Without state, the film-id template unchanged. Otherwise `AND updated_at > '<state>'` is inserted just before the last `WHERE pfw.person_id IN (<person query>)`, and the length grows by the clause |
| FilmWorkLoading.PostgresLoader.Loader | src/services/pq_loader_film_work.py:31-33 | As written: executing the pair `(full_load, query)` raises TypeError, and `data` and the cursor keep what they had |
| FilmWorkLoading.PostgresLoader.LoaderFormatted | src/services/pq_loader_film_work.py:31-56 | Corrected: executes `full_load % load_film_work_id()`, appending one film dict per row in order (formatting errors propagate and change nothing) |
| FilmWorkLoading.PostgresLoader.AppendRows | src/services/pq_loader_film_work.py:35-54 | The batch loop: all rows of the query, fetched a hundred at a time, appended as film dicts in order |
| FilmWorkLoading.FormattedStatementEmbedsFilmIdQuery | src/services/pq_loader_film_work.py:33 | With one `%s` in the full-load template, the formatted statement embeds the film-id query at that place |
| EtlFilmWorkLoading.FilmFromRow | src/services/etl/pq_loader_film_work.py:48-60 | A row validates as a `Film` exactly when id and title are text, the rating a number and the optional columns absent or of their declared type; `genre` and `director` stay None (`ValidFilmRow`) |
| EtlFilmWorkLoading.RecordOfValidRow | src/services/etl/pq_loader_film_work.py:48-61 | The dict of a valid row has `rating` as `imdb_rating`, the kept columns unchanged, and `genre` and `director` None |
| EtlFilmWorkLoading.FilmFromRowFields | src/services/etl/pq_loader_film_work.py:48-60 | The film of a valid row carries the row's id, title, rating and optional columns |
| EtlFilmWorkLoading.FilmRecordFields | src/services/etl/pq_loader_film_work.py:61 | `.dict()` holds every field of `Film` under its own name, None where unset |
| EtlFilmWorkLoading.FilmRecordKeys | src/services/etl/pq_loader_film_work.py:48-61 | The ignored keyword arguments `directors_names`, `genres_names` and `directors`, and the column name `rating`, do not appear in the dict |
| EtlFilmWorkLoading.LoadedMoviesIsValidPrefix | src/services/etl/pq_loader_film_work.py:47-61 | The dicts appended are those of the longest prefix of valid rows, in order. The load completes exactly when every row validates; otherwise it stops with ValidationError at the first invalid row |
| EtlFilmWorkLoading.LoadFromShift | src/services/etl/pq_loader_film_work.py:47-61 | Dicts already appended stay in front of whatever the rest of the rows append, and the outcome is the same |
| EtlFilmWorkLoading.LoadFrom | src/services/etl/pq_loader_film_work.py:47-61 | The row loop only appends, at most one dict per row, after the dicts already there. It ends with the fault it started with or ValidationError, and once a row has failed the remaining rows change nothing |
| EtlFilmWorkLoading.LoadedMovies | src/services/etl/pq_loader_film_work.py:40-61 | Loading all rows appends at most one dict per row and ends without exception or with ValidationError |
| EtlFilmWorkLoading.PostgresLoader.LoadFilmWorkId | src/services/etl/pq_loader_film_work.py:25-33 | `load_film_id % person query`, whose errors propagate. Without state the formatted text; otherwise the clause inserted just before the last person-id condition, or before the last character when the condition is absent, with the length grown by the clause |
| EtlFilmWorkLoading.PostgresLoader.LoadAllFilmWorkPerson | src/services/etl/pq_loader_film_work.py:35-36 | A statement is built only when the film-id query is, and is at least as long as it; every failure is TypeError or ValueError from `%` formatting |
| EtlFilmWorkLoading.AllFilmWorkPersonEmbedsFilmIdQuery | src/services/etl/pq_loader_film_work.py:35-36 | With one `%s` and no other `%` in the full-load template, the statement is the film-id query embedded at that place; a failure to build the film-id query is the statement's failure |
| EtlFilmWorkLoading.PostgresLoader.LoaderMovies | src/services/etl/pq_loader_film_work.py:38-63 | A formatting error raises and changes nothing. Otherwise the statement is executed once, and `data` grows by the dicts of the valid prefix of its rows. The result is `data` when all rows validate, ValidationError otherwise |
| EtlFilmWorkLoading.PostgresLoader.AppendMovies | src/services/etl/pq_loader_film_work.py:40-63 | The batch loop: rows fetched a hundred at a time and appended until the first invalid one |
| EtlFilmWorkLoading.PostgresLoader.AppendBatch | src/services/etl/pq_loader_film_work.py:47-61 | One batch: the rest of the load after the batch is the same as before it, or, when a row does not validate, the load ends here with ValidationError |

## Left out

- Network I/O, `async`/`await` and concurrency. Every call is one sequential step on in-memory objects; nothing interleaves.
- Expiry. The TTL is stored with each entry, but no clock runs and no entry expires.
- JSON text. Cached payloads and index sources are structured documents. Decoding as a model succeeds exactly when the document is of that model's kind. Among the three cached kinds, `Film`, `Genre` and `Person` of src/models/models.py, none has its required fields covered by another's fields. `FilmShort` requires only `id` and `title`, which every `Film` has, but no service in the core caches or decodes it. Pydantic's coercions between numbers and text are not modelled: a value of the wrong type fails validation.
- `imdb_rating` is a `real`; nothing in the core computes on it.
- Missing ids in the index. The Elasticsearch client raises `NotFoundError` for an absent id. The model answers None, which is the branch `_get_by_id` has for a falsy result.
- Relevance, fuzziness and sorting are the search engine's business. The index is a fixed answer per request.
- `PersonServices.PersonService.GetById`, `GetPersonList`, `GetBySearch` and `GenreServices.GenreService.GetById`, `GetGenreList` call the base helpers with more arguments than those take. In Python every such call raises TypeError. The model runs the base protocol with the index, prefix, model, field and TTL they name.
- `FilmServices.FilmService`: Python's inheritance from `RedisCache` is composition here; the service holds its cache object.
- The `lru_cache` service factories, the HTTP routers in src/api/v1 and the orchestration in src/services/load_data.py.
- src/models/film.py is not part of this model. `GenreLoading.GenreRecord` and `FilmWorkLoading.FilmWorkRecord` are the keyword arguments as passed; that module's validation and `.dict()` are unknown.
- The SQL templates of `db_query` and the saved state read through `State`/`JsonFileStorage` are constructor parameters. `load_person_id` returns its template unchanged, so it is that parameter.
- `FilmServices.FilmRequest`, `FilmServices.GetFilmSpec`: a query is either absent or a dict holding all four of `sort_field`, `sort_type`, `page_number` and `page_size`, which is what the one caller in the core passes. A truthy dict missing some of them is not modelled; in Python it gives `size=None` and a sort of `None:None`, and without `page_number` or `page_size` the `from_` product raises TypeError.
- `SqlText.FormatFrom`: only `%s` and `%%` are modelled. Every other conversion, and a trailing lone `%`, raises ValueError. Python accepts `%r`, `%a`, flags and widths, and raises TypeError for numeric conversions of a string.
- `EtlFilmWorkLoading.PostgresLoader.LoaderMovies`: after a row fails validation, the cursor's remaining pending rows are not described.
- `FilmWorkLoading.PostgresLoader.AppendRows`, `EtlFilmWorkLoading.PostgresLoader.AppendMovies`, `EtlFilmWorkLoading.PostgresLoader.AppendBatch`, `FilmServices.FilmService.CollectAlike` and `FilmServices.FilmService.AlikeFromSource` are loops and stages of the Python methods, moved into methods of their own. The order of effects is unchanged.

## Findings

| source | as written | input that shows it | evidently intended | confidence | as-written member | corrected member |
|---|---|---|---|---|---|---|
| src/services/pq_loader_film_work.py:33 | `cursor.execute((full_load, self.load_film_work_id()))` passes a tuple as the query; psycopg2 takes query text and raises TypeError | any call of `loader()` | `full_load % self.load_film_work_id()`, as src/services/etl/pq_loader_film_work.py:35-36 does | not executed | FilmWorkLoading.PostgresLoader.Loader | FilmWorkLoading.PostgresLoader.LoaderFormatted |
