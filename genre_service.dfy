/**
 * src/services/genre.py: the base protocol for genres under the index and
 * prefix "genre"; every write expires after 300 seconds.
 */
module GenreServices {
  import opened Wrappers
  import opened Models
  import opened Serialization
  import opened RedisStore
  import opened ElasticSearch
  import opened CacheKeys
  import opened Protocol
  import opened BaseServices

  const GenreCacheExpireInSeconds := 60 * 5
  const GenreIndex := "genre"

  /** A genre page that was found is cached under `genre:{page_number}:{page_size}` for 300 seconds. */
  lemma GenreListWriteKey(entries: map<string, Entry>, contents: Contents, pageNumber: int, pageSize: int)
    requires PagedList(entries, contents, GenreIndex, GenreIndex, GenreKind, pageNumber, pageSize,
                       GenreCacheExpireInSeconds).issued != []
    requires PagedList(entries, contents, GenreIndex, GenreIndex, GenreKind, pageNumber, pageSize,
                       GenreCacheExpireInSeconds).reply.Found?
    ensures var s := PagedList(entries, contents, GenreIndex, GenreIndex, GenreKind, pageNumber, pageSize,
                               GenreCacheExpireInSeconds);
            s.entries == entries["genre:" + IntDecimal(pageNumber) + ":" + IntDecimal(pageSize) :=
                                 Entry(Many(s.reply.value), 300)]
  {
    assert ListKey(GenreIndex, pageNumber, pageSize) == "genre:" + IntDecimal(pageNumber) + ":" + IntDecimal(pageSize);
  }

  class GenreService {
    const base: BaseService

    /** The base service it stands on is the genre one. */
    predicate Valid()
    {
      base.esIndex == GenreIndex && base.model == GenreKind
    }

    constructor (redis: Redis, elastic: Elastic)
      ensures base.redis == redis && base.elastic == elastic
      ensures Valid()
    {
      base := new BaseService(redis, elastic, GenreIndex, GenreKind);
    }

    /** Delegates to the base by-id protocol. */
    method GetById(genreId: string) returns (r: Reply<Doc>)
      requires Valid()
      modifies base.redis, base.elastic
      ensures var s := ById(old(base.redis.entries), base.elastic.contents, GenreIndex, GenreKind,
                            genreId, GenreCacheExpireInSeconds);
              r == s.reply && base.redis.entries == s.entries && base.elastic.log == old(base.elastic.log) + s.issued
    {
      r := base.GetById(genreId, GenreCacheExpireInSeconds);
    }

    method GetGenreList(pageNumber: int, pageSize: int) returns (r: Reply<seq<Doc>>)
      requires Valid()
      modifies base.redis, base.elastic
      ensures var s := PagedList(old(base.redis.entries), base.elastic.contents, GenreIndex, GenreIndex,
                                 GenreKind, pageNumber, pageSize, GenreCacheExpireInSeconds);
              r == s.reply && base.redis.entries == s.entries && base.elastic.log == old(base.elastic.log) + s.issued
    {
      r := base.GetListFromCache(pageNumber, pageSize, base.esIndex);
      if r.Raised? || (r.Found? && |r.value| > 0) {
        return;
      }
      r := base.GetListFromElastic(pageNumber, pageSize, None);
      if r.Raised? {
        return;
      }
      if |r.value| == 0 {
        return NotFound;
      }
      base.PutListToCache(pageNumber, pageSize, base.esIndex, r.value, GenreCacheExpireInSeconds);
    }
  }
}
