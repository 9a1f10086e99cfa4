/**
 * src/services/person.py: the base protocol for persons. Its list keys use
 * the prefix "persons" while its index and its search keys use "person";
 * every write expires after 300 seconds; search matches `full_name`.
 */
module PersonServices {
  import opened Wrappers
  import opened Models
  import opened Serialization
  import opened RedisStore
  import opened ElasticSearch
  import opened CacheKeys
  import opened Protocol
  import opened BaseServices

  const PersonCacheExpireInSeconds := 60 * 5
  const PersonIndex := "person"
  const PersonListPrefix := "persons"
  const PersonSearchPrefix := "person"
  const PersonSearchField := "full_name"

  /** Person list keys and person search keys never meet: they differ at character 6. */
  lemma PersonListAndSearchKeysDiffer(pageNumber: int, pageSize: int, searchString: string)
    ensures ListKey(PersonListPrefix, pageNumber, pageSize) != SearchKey(PersonSearchPrefix, searchString)
  {
    var listKey := ListKey(PersonListPrefix, pageNumber, pageSize);
    var searchKey := SearchKey(PersonSearchPrefix, searchString);
    assert listKey[6] == 's';
    assert searchKey[6] == ':';
  }

  /**
   * Hence a person search never reads what a person list wrote: after any
   * page was cached, a search still finds the cache as it was before that
   * page was written.
   */
  lemma PersonSearchIgnoresListWrites(entries: map<string, Entry>, contents: Contents, pageNumber: int,
                                      pageSize: int, searchString: string)
    ensures var page := PagedList(entries, contents, PersonListPrefix, PersonIndex, PersonKind,
                                  pageNumber, pageSize, PersonCacheExpireInSeconds);
            CachedList(page.entries, SearchKey(PersonSearchPrefix, searchString), PersonKind) ==
              CachedList(entries, SearchKey(PersonSearchPrefix, searchString), PersonKind)
  {
    PersonListAndSearchKeysDiffer(pageNumber, pageSize, searchString);
  }

  class PersonService {
    const base: BaseService

    /** The base service it stands on is the person one. */
    predicate Valid()
    {
      base.esIndex == PersonIndex && base.model == PersonKind
    }

    constructor (redis: Redis, elastic: Elastic)
      ensures base.redis == redis && base.elastic == elastic
      ensures Valid()
    {
      base := new BaseService(redis, elastic, PersonIndex, PersonKind);
    }

    method GetById(personId: string) returns (r: Reply<Doc>)
      requires Valid()
      modifies base.redis, base.elastic
      ensures var s := ById(old(base.redis.entries), base.elastic.contents, PersonIndex, PersonKind,
                            personId, PersonCacheExpireInSeconds);
              r == s.reply && base.redis.entries == s.entries && base.elastic.log == old(base.elastic.log) + s.issued
    {
      r := base.GetByIdFromCache(personId);
      if r.Found? || r.Raised? {
        return;
      }
      r := base.GetByIdFromElastic(personId);
      if !r.Found? {
        return;
      }
      base.PutByIdToCache(r.value, PersonCacheExpireInSeconds);
    }

    method GetPersonList(pageNumber: int, pageSize: int) returns (r: Reply<seq<Doc>>)
      requires Valid()
      modifies base.redis, base.elastic
      ensures var s := PagedList(old(base.redis.entries), base.elastic.contents, PersonListPrefix, PersonIndex,
                                 PersonKind, pageNumber, pageSize, PersonCacheExpireInSeconds);
              r == s.reply && base.redis.entries == s.entries && base.elastic.log == old(base.elastic.log) + s.issued
    {
      r := base.GetListFromCache(pageNumber, pageSize, PersonListPrefix);
      if r.Raised? || (r.Found? && |r.value| > 0) {
        return;
      }
      r := base.GetListFromElastic(pageNumber, pageSize, None);
      if r.Raised? {
        return;
      }
      if |r.value| == 0 {
        return NotFound;
      }
      base.PutListToCache(pageNumber, pageSize, PersonListPrefix, r.value, PersonCacheExpireInSeconds);
    }

    method GetBySearch(searchString: string) returns (r: Reply<seq<Doc>>)
      requires Valid()
      modifies base.redis, base.elastic
      ensures var s := BySearch(old(base.redis.entries), base.elastic.contents, PersonSearchPrefix, PersonIndex,
                                PersonKind, searchString, PersonSearchField, PersonCacheExpireInSeconds);
              r == s.reply && base.redis.entries == s.entries && base.elastic.log == old(base.elastic.log) + s.issued
    {
      r := base.GetBySearchFromCache(PersonSearchPrefix, searchString, PersonKind);
      if r.Raised? || (r.Found? && |r.value| > 0) {
        return;
      }
      r := base.GetBySearchFromElastic(searchString, PersonSearchField);
      if r.Raised? {
        return;
      }
      if |r.value| == 0 {
        return NotFound;
      }
      base.PutBySearchToCache(PersonSearchPrefix, searchString, r.value, PersonCacheExpireInSeconds);
    }
  }
}
