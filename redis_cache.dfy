/**
 * src/services/redis_cache.py: the film cache. The caller supplies the key;
 * a payload is decoded as a list of films first and, only if that fails,
 * as a single film; every write expires after 10 seconds.
 */
module FilmCache {
  import opened Wrappers
  import opened Models
  import opened Serialization
  import opened RedisStore
  import opened ElasticSearch

  const FilmCacheExpireInSeconds := 10

  /** What the film cache hands back: the list it normally holds, or one film. */
  datatype FilmValue = Films(films: seq<Film>) | OneFilm(film: Film)

  /** Python truthiness of the value: an empty list is falsy, a model never is. */
  predicate Truthy(v: FilmValue)
    ensures Truthy(v) <==> Encode(v) != Many([])
  {
    v.OneFilm? || |v.films| > 0
  }

  /** The documents of a list of films. */
  function FilmDocs(films: seq<Film>): (docs: seq<Doc>)
    ensures |docs| == |films|
    ensures forall i :: 0 <= i < |films| ==> docs[i] == FilmDoc(films[i])
  {
    seq(|films|, i requires 0 <= i < |films| => FilmDoc(films[i]))
  }

  /** `Film(**source)` for each source in order (also `parse_raw_as(list[Film], ...)`'s elements). */
  function ToFilms(sources: seq<Doc>): (r: Reply<seq<Film>>)
    ensures r.Found? <==> forall i :: 0 <= i < |sources| ==> sources[i].FilmDoc?
    ensures r.Found? ==> sources == FilmDocs(r.value)
    ensures !r.Found? ==> r == Raised(ValidationError)
  {
    var models := ToModels(FilmKind, sources);
    if models.Found? then
      var docs := models.value;
      assert forall i :: 0 <= i < |docs| ==> KindOf(docs[i]) == FilmKind;
      Found(seq(|docs|, i requires 0 <= i < |docs| => docs[i].film))
    else
      Raised(ValidationError)
  }

  /** `json.dumps(value, default=pydantic_encoder)`. */
  function Encode(v: FilmValue): (p: Payload)
    ensures p.Many? <==> v.Films?
    ensures v.Films? ==> ParseList(FilmKind, p).Found?
    ensures v.OneFilm? ==> ParseOne(FilmKind, p).Found?
  {
    match v
    case Films(films) => Many(FilmDocs(films))
    case OneFilm(film) => One(FilmDoc(film))
  }

  /**
   * `_get_film_sorted_from_cache` after the read: `parse_raw_as(list[Film])`,
   * falling back to `Film.parse_raw` when that raises.
   */
  function DecodeFilm(p: Payload): (r: Reply<FilmValue>)
    ensures r.Found? <==> (p.Many? && forall i :: 0 <= i < |p.docs| ==> p.docs[i].FilmDoc?) ||
                          (p.One? && p.doc.FilmDoc?)
    ensures r.Found? ==> Encode(r.value) == p
    ensures r.Found? ==> (r.value.Films? <==> p.Many?)
    ensures !r.Found? ==> r == Raised(ValidationError)
  {
    var list := ParseList(FilmKind, p);
    if list.Found? then
      var films := ToFilms(list.value);
      assert films.Found?;
      Found(Films(films.value))
    else
      var one := ParseOne(FilmKind, p);
      if one.Found? then Found(OneFilm(one.value.film)) else Raised(ValidationError)
  }

  /** What `_get_film_sorted_from_cache(key)` returns for a cache state: None for a missing key. */
  function CachedFilm(entries: map<string, Entry>, key: string): (r: Reply<FilmValue>)
    ensures r.NotFound? <==> key !in entries
    ensures r.Found? ==> Encode(r.value) == entries[key].value
    ensures r.Raised? ==> r.fault == ValidationError
  {
    match Lookup(entries, key)
    case None => NotFound
    case Some(p) => DecodeFilm(p)
  }

  /**
   * Round trip: whatever `_put_film_to_cache` wrote under a key is what the
   * next `_get_film_sorted_from_cache` of that key decodes, the empty list
   * included.
   */
  lemma {:induction false} PutThenGet(entries: map<string, Entry>, key: string, films: seq<Film>)
    ensures CachedFilm(entries[key := Entry(Encode(Films(films)), FilmCacheExpireInSeconds)], key) == Found(Films(films))
  {
    var docs := FilmDocs(films);
    var r := DecodeFilm(Many(docs));
    assert r.Found?;
    assert r.value.Films?;
    assert FilmDocs(r.value.films) == docs;
    assert r.value.films == films by {
      assert |r.value.films| == |films|;
      forall i | 0 <= i < |films| ensures r.value.films[i] == films[i] {
        assert FilmDocs(r.value.films)[i] == docs[i];
      }
    }
  }

  class RedisCache {
    const redis: Redis
    const elastic: Elastic

    constructor (redis: Redis, elastic: Elastic)
      ensures this.redis == redis && this.elastic == elastic
    {
      this.redis := redis;
      this.elastic := elastic;
    }

    method GetFilmSortedFromCache(key: string) returns (r: Reply<FilmValue>)
      ensures r == CachedFilm(redis.entries, key)
    {
      var data := redis.Get(key);
      if data.None? {
        return NotFound;
      }
      r := DecodeFilm(data.value);
    }

    /** Writes the list under exactly `key`, for 10 seconds, and touches no other key. */
    method PutFilmToCache(key: string, filmList: seq<Film>)
      modifies redis
      ensures redis.entries == old(redis.entries)[key := Entry(Encode(Films(filmList)), FilmCacheExpireInSeconds)]
    {
      redis.Set(key, Encode(Films(filmList)), FilmCacheExpireInSeconds);
    }
  }
}
