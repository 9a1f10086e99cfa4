/**
 * src/services/base.py: the generic service, parameterised by an index
 * name and a model class, with three cache-aside operations of the same
 * shape (by id, by search, paged list).
 */
module BaseServices {
  import opened Wrappers
  import opened Models
  import opened Serialization
  import opened RedisStore
  import opened ElasticSearch
  import opened CacheKeys
  import opened Protocol

  // ---------------------------------------------------------------------------
  // The pieces each operation is made of
  // ---------------------------------------------------------------------------

  /** `_get_by_id_from_cache` / `_get_..._from_cache` before the decode: the payload under a key. */
  function CachedOne(entries: map<string, Entry>, key: string, kind: Kind): (r: Reply<Doc>)
    ensures r.NotFound? <==> key !in entries
    ensures r.Found? ==> KindOf(r.value) == kind && entries[key].value == One(r.value)
    ensures r.Raised? ==> r.fault == ValidationError
  {
    match Lookup(entries, key)
    case None => NotFound
    case Some(p) => ParseOne(kind, p)
  }

  function CachedList(entries: map<string, Entry>, key: string, kind: Kind): (r: Reply<seq<Doc>>)
    ensures r.NotFound? <==> key !in entries
    ensures r.Found? ==> entries[key].value == Many(r.value) &&
                         forall i :: 0 <= i < |r.value| ==> KindOf(r.value[i]) == kind
    ensures r.Raised? ==> r.fault == ValidationError
  {
    match Lookup(entries, key)
    case None => NotFound
    case Some(p) => ParseList(kind, p)
  }

  /** `_get_by_id_from_elastic`: the stored source built into the model. */
  function FetchedOne(contents: Contents, index: string, kind: Kind, id: string): (r: Reply<Doc>)
    ensures r.NotFound? <==> contents.source(index, id).None?
    ensures r.Found? ==> contents.source(index, id) == Some(r.value) && KindOf(r.value) == kind
    ensures r.Raised? ==> r.fault == ValidationError
  {
    match contents.source(index, id)
    case None => NotFound
    case Some(source) => ToModel(kind, source)
  }

  /** The body of `_get_by_search_from_elastic`: a fuzzy `match` of the text on one field. */
  function SearchBody(field: string, searchString: string): (b: Body)
    ensures b.Keys == {"query"}
    ensures b["query"] == JObj(map["match" := JObj(map[field := JObj(map["query" := JStr(searchString), "fuzziness" := JStr("auto")])])])
  {
    map["query" := JObj(map["match" := JObj(map[field := JObj(map["query" := JStr(searchString), "fuzziness" := JStr("auto")])])])]
  }

  function SearchRequest(index: string, field: string, searchString: string): Request
  {
    Request.Search(index, Some(SearchBody(field, searchString)), None, None, None)
  }

  /**
   * The body of `_get_list_from_elastic`: the page window, merged with a
   * truthy (non-empty) `query` dict by `|`, whose keys win.
   */
  function ListBody(pageNumber: int, pageSize: int, query: Option<Body>): (b: Body)
    ensures "from" in b && "size" in b
    ensures forall k :: k in b ==> k == "from" || k == "size" || (query.Some? && k in query.value)
    ensures query.Some? ==> forall k :: k in query.value ==> k in b && b[k] == query.value[k]
    ensures query.None? || "from" !in query.value ==> b["from"] == JInt(pageNumber * pageSize)
    ensures query.None? || "size" !in query.value ==> b["size"] == JInt(pageSize)
  {
    var window := map["from" := JInt(pageNumber * pageSize), "size" := JInt(pageSize)];
    assert window.Keys == {"from", "size"};
    if query.Some? && |query.value| > 0 then window + query.value else window
  }

  function ListRequest(index: string, pageNumber: int, pageSize: int, query: Option<Body>): Request
  {
    Request.Search(index, Some(ListBody(pageNumber, pageSize, query)), None, None, None)
  }

  // ---------------------------------------------------------------------------
  // The three operations as functions of the cache and the index
  // ---------------------------------------------------------------------------

  /** `_get_by_id`: read key is the requested id, write key is the found model's id. */
  function ById(entries: map<string, Entry>, contents: Contents, index: string, kind: Kind,
                id: string, expire: int): (s: Step<Doc>)
    ensures var c := CachedOne(entries, ByIdKey(id), kind);
            (s.issued == [] <==> !c.NotFound?) && (s.issued == [] ==> s.reply == c && s.entries == entries)
    ensures s.issued != [] ==> s.issued == [Request.Get(index, id)] && s.reply == FetchedOne(contents, index, kind, id)
    ensures s.issued != [] && s.reply.Found? ==>
              s.entries == entries[ByIdKey(IdOf(s.reply.value)) := Entry(One(s.reply.value), expire)]
    ensures s.issued != [] && !s.reply.Found? ==> s.entries == entries
  {
    CacheAside(entries, CachedOne(entries, ByIdKey(id), kind), (d: Doc) => true,
               Request.Get(index, id), FetchedOne(contents, index, kind, id),
               (d: Doc) => (ByIdKey(IdOf(d)), One(d)), expire)
  }

  /** `_get_by_search`: one key `prefix:search_string` for the read and the write. */
  function BySearch(entries: map<string, Entry>, contents: Contents, prefix: string, index: string,
                    kind: Kind, searchString: string, field: string, expire: int): (s: Step<seq<Doc>>)
    ensures var c := CachedList(entries, SearchKey(prefix, searchString), kind);
            (s.issued == [] <==> c.Raised? || (c.Found? && |c.value| > 0)) &&
            (s.issued == [] ==> s.reply == c && s.entries == entries)
    ensures var request := SearchRequest(index, field, searchString);
            var fetched := ToModels(kind, contents.hits(request));
            s.issued != [] ==>
              s.issued == [request] &&
              (fetched.Raised? ==> s.reply == fetched && s.entries == entries) &&
              (fetched.Found? && |fetched.value| > 0 ==>
                 s.reply == fetched &&
                 s.entries == entries[SearchKey(prefix, searchString) := Entry(Many(fetched.value), expire)]) &&
              (fetched.Found? && fetched.value == [] ==> s.reply == NotFound && s.entries == entries)
  {
    var key := SearchKey(prefix, searchString);
    var request := SearchRequest(index, field, searchString);
    CacheAside(entries, CachedList(entries, key, kind), (l: seq<Doc>) => |l| > 0,
               request, ToModels(kind, contents.hits(request)),
               (l: seq<Doc>) => (key, Many(l)), expire)
  }

  /** `_get_list`: one key `prefix:page_number:page_size` for the read and the write. */
  function PagedList(entries: map<string, Entry>, contents: Contents, prefix: string, index: string,
                     kind: Kind, pageNumber: int, pageSize: int, expire: int): (s: Step<seq<Doc>>)
    ensures var c := CachedList(entries, ListKey(prefix, pageNumber, pageSize), kind);
            (s.issued == [] <==> c.Raised? || (c.Found? && |c.value| > 0)) &&
            (s.issued == [] ==> s.reply == c && s.entries == entries)
    ensures var request := ListRequest(index, pageNumber, pageSize, None);
            var fetched := ToModels(kind, contents.hits(request));
            s.issued != [] ==>
              s.issued == [request] &&
              (fetched.Raised? ==> s.reply == fetched && s.entries == entries) &&
              (fetched.Found? && |fetched.value| > 0 ==>
                 s.reply == fetched &&
                 s.entries == entries[ListKey(prefix, pageNumber, pageSize) := Entry(Many(fetched.value), expire)]) &&
              (fetched.Found? && fetched.value == [] ==> s.reply == NotFound && s.entries == entries)
  {
    var key := ListKey(prefix, pageNumber, pageSize);
    var request := ListRequest(index, pageNumber, pageSize, None);
    CacheAside(entries, CachedList(entries, key, kind), (l: seq<Doc>) => |l| > 0,
               request, ToModels(kind, contents.hits(request)),
               (l: seq<Doc>) => (key, Many(l)), expire)
  }

  // ---------------------------------------------------------------------------
  // Properties of the protocol
  // ---------------------------------------------------------------------------

  /**
   * A by-id read that found a model whose id is the requested id leaves the
   * cache so that the same read again returns the same model, issues no
   * index request and writes nothing.
   */
  lemma ByIdWarmRead(entries: map<string, Entry>, contents: Contents, index: string, kind: Kind,
                     id: string, expire: int)
    requires ById(entries, contents, index, kind, id, expire).reply.Found?
    requires IdOf(ById(entries, contents, index, kind, id, expire).reply.value) == id
    ensures var first := ById(entries, contents, index, kind, id, expire);
            var second := ById(first.entries, contents, index, kind, id, expire);
            second == Step(first.reply, first.entries, [])
  {
    var first := ById(entries, contents, index, kind, id, expire);
    var d := first.reply.value;
    assert KindOf(d) == kind by {
      if first.issued == [] {
        assert CachedOne(entries, id, kind) == first.reply;
      } else {
        assert FetchedOne(contents, index, kind, id) == first.reply;
      }
    }
    assert first.issued != [] ==> first.entries[id] == Entry(One(d), expire);
  }

  /**
   * The write key is the found model's id, not the requested id: when they
   * differ, a miss stays a miss and the next read queries the index again.
   */
  lemma ByIdWriteKeyIsModelId(entries: map<string, Entry>, contents: Contents, index: string, kind: Kind,
                              id: string, expire: int)
    requires ById(entries, contents, index, kind, id, expire).issued != []
    requires ById(entries, contents, index, kind, id, expire).reply.Found?
    requires IdOf(ById(entries, contents, index, kind, id, expire).reply.value) != id
    ensures var first := ById(entries, contents, index, kind, id, expire);
            id !in first.entries &&
            IdOf(first.reply.value) in first.entries &&
            ById(first.entries, contents, index, kind, id, expire).issued == [Request.Get(index, id)]
  {
    var first := ById(entries, contents, index, kind, id, expire);
    assert CachedOne(entries, id, kind).NotFound?;
    assert id !in entries;
  }

  /** A by-id read that found nothing caches nothing, so repeating it queries the index again. */
  lemma ByIdNotFoundIsNotCached(entries: map<string, Entry>, contents: Contents, index: string, kind: Kind,
                                id: string, expire: int)
    requires ById(entries, contents, index, kind, id, expire).reply.NotFound?
    ensures var first := ById(entries, contents, index, kind, id, expire);
            first.entries == entries &&
            first.issued == [Request.Get(index, id)] &&
            ById(first.entries, contents, index, kind, id, expire) == first
  {
  }

  /**
   * By-id keys have no entity prefix: once one service has cached a model
   * under its id, a service of another kind reading that id gets the other
   * kind's payload, fails to validate it and never reaches the index.
   */
  lemma ByIdKindsShareKeys(entries: map<string, Entry>, contents: Contents, index: string, kind: Kind,
                           otherIndex: string, other: Kind, id: string, expire: int)
    requires other != kind
    requires ById(entries, contents, index, kind, id, expire).reply.Found?
    requires IdOf(ById(entries, contents, index, kind, id, expire).reply.value) == id
    ensures var first := ById(entries, contents, index, kind, id, expire);
            ById(first.entries, contents, otherIndex, other, id, expire) ==
              Step(Raised(ValidationError), first.entries, [])
  {
    var first := ById(entries, contents, index, kind, id, expire);
    var d := first.reply.value;
    assert KindOf(d) == kind by {
      if first.issued == [] {
        assert CachedOne(entries, id, kind) == first.reply;
      } else {
        assert FetchedOne(contents, index, kind, id) == first.reply;
      }
    }
    assert first.entries[id].value == One(d);
  }

  /**
   * By-id keys carry no entity prefix either: a model whose id is spelled
   * `prefix:text` is cached exactly where a search for `text` under `prefix`
   * reads, and that search, of whatever kind, then fails to parse the single
   * document as a list and never reaches the index.
   */
  lemma ByIdWriteBreaksSearch(entries: map<string, Entry>, contents: Contents, index: string, kind: Kind,
                              id: string, expire: int, prefix: string, searchIndex: string, searchKind: Kind,
                              searchString: string, field: string, searchExpire: int)
    requires ById(entries, contents, index, kind, id, expire).issued != []
    requires ById(entries, contents, index, kind, id, expire).reply.Found?
    requires IdOf(ById(entries, contents, index, kind, id, expire).reply.value) == SearchKey(prefix, searchString)
    ensures var first := ById(entries, contents, index, kind, id, expire);
            BySearch(first.entries, contents, prefix, searchIndex, searchKind, searchString, field, searchExpire) ==
              Step(Raised(ValidationError), first.entries, [])
  {
    var first := ById(entries, contents, index, kind, id, expire);
    var key := SearchKey(prefix, searchString);
    assert first.entries[key].value == One(first.reply.value);
    assert CachedList(first.entries, key, searchKind) == Raised(ValidationError);
  }

  /** A search that returned a non-empty list is answered from the cache the next time. */
  lemma BySearchWarmRead(entries: map<string, Entry>, contents: Contents, prefix: string, index: string,
                         kind: Kind, searchString: string, field: string, expire: int)
    requires BySearch(entries, contents, prefix, index, kind, searchString, field, expire).reply.Found?
    ensures var first := BySearch(entries, contents, prefix, index, kind, searchString, field, expire);
            var second := BySearch(first.entries, contents, prefix, index, kind, searchString, field, expire);
            second == Step(first.reply, first.entries, [])
  {
    var first := BySearch(entries, contents, prefix, index, kind, searchString, field, expire);
    var key := SearchKey(prefix, searchString);
    assert first.entries[key].value == Many(first.reply.value) by {
      if first.issued == [] {
        assert CachedList(entries, key, kind) == first.reply;
      }
    }
  }

  /** A page that was found is answered from the cache the next time. */
  lemma PagedListWarmRead(entries: map<string, Entry>, contents: Contents, prefix: string, index: string,
                          kind: Kind, pageNumber: int, pageSize: int, expire: int)
    requires PagedList(entries, contents, prefix, index, kind, pageNumber, pageSize, expire).reply.Found?
    ensures var first := PagedList(entries, contents, prefix, index, kind, pageNumber, pageSize, expire);
            var second := PagedList(first.entries, contents, prefix, index, kind, pageNumber, pageSize, expire);
            second == Step(first.reply, first.entries, [])
  {
    var first := PagedList(entries, contents, prefix, index, kind, pageNumber, pageSize, expire);
    var key := ListKey(prefix, pageNumber, pageSize);
    assert first.entries[key].value == Many(first.reply.value) by {
      if first.issued == [] {
        assert CachedList(entries, key, kind) == first.reply;
      }
    }
  }

  /** An empty search result is Python's None and is not cached. */
  lemma BySearchEmptyIsNotCached(entries: map<string, Entry>, contents: Contents, prefix: string, index: string,
                                 kind: Kind, searchString: string, field: string, expire: int)
    requires SearchKey(prefix, searchString) !in entries
    requires contents.hits(SearchRequest(index, field, searchString)) == []
    ensures BySearch(entries, contents, prefix, index, kind, searchString, field, expire) ==
              Step(NotFound, entries, [SearchRequest(index, field, searchString)])
  {
  }

  /**
   * Search and list keys share one namespace: after page 0 of size 20 was
   * cached, a search for the text "0:20" under the same prefix returns that
   * page from the cache and never queries the index.
   */
  lemma SearchAfterListReturnsPage(entries: map<string, Entry>, contents: Contents, prefix: string,
                                   kind: Kind, field: string, expire: int, searchExpire: int)
    requires PagedList(entries, contents, prefix, prefix, kind, 0, 20, expire).reply.Found?
    ensures var page := PagedList(entries, contents, prefix, prefix, kind, 0, 20, expire);
            BySearch(page.entries, contents, prefix, prefix, kind, "0:20", field, searchExpire) ==
              Step(page.reply, page.entries, [])
  {
    PagedListWarmRead(entries, contents, prefix, prefix, kind, 0, 20, expire);
    SearchZeroTwentyIsFirstListPage(prefix);
  }

  // ---------------------------------------------------------------------------
  // The hit-mapping loop
  // ---------------------------------------------------------------------------

  /**
   * `for d in hits: result.append(self.model(**d['_source']))`: one model per
   * hit, in hit order; the first hit that does not validate raises.
   */
  method MapHits(kind: Kind, hits: seq<Doc>) returns (r: Reply<seq<Doc>>)
    ensures r == ToModels(kind, hits)
  {
    var result: seq<Doc> := [];
    for i := 0 to |hits|
      invariant ToModels(kind, hits[..i]) == Found(result)
    {
      var m := ToModel(kind, hits[i]);
      if m.Raised? {
        assert KindOf(hits[i]) != kind;
        return Raised(m.fault);
      }
      assert hits[..i + 1][..i] == hits[..i];
      result := result + [m.value];
    }
    assert hits[..|hits|] == hits;
    r := Found(result);
  }

  // ---------------------------------------------------------------------------
  // The service object
  // ---------------------------------------------------------------------------

  class BaseService {
    const redis: Redis
    const elastic: Elastic
    const esIndex: string
    const model: Kind

    constructor (redis: Redis, elastic: Elastic, esIndex: string, model: Kind)
      ensures this.redis == redis && this.elastic == elastic
      ensures this.esIndex == esIndex && this.model == model
    {
      this.redis := redis;
      this.elastic := elastic;
      this.esIndex := esIndex;
      this.model := model;
    }

    method GetById(id: string, cachExpire: int) returns (r: Reply<Doc>)
      modifies redis, elastic
      ensures var s := ById(old(redis.entries), elastic.contents, esIndex, model, id, cachExpire);
              r == s.reply && redis.entries == s.entries && elastic.log == old(elastic.log) + s.issued
    {
      r := GetByIdFromCache(id);
      if r.Found? || r.Raised? {
        return;
      }
      r := GetByIdFromElastic(id);
      if !r.Found? {
        return;
      }
      PutByIdToCache(r.value, cachExpire);
    }

    method GetByIdFromCache(id: string) returns (r: Reply<Doc>)
      ensures r == CachedOne(redis.entries, ByIdKey(id), model)
    {
      var data := redis.Get(ByIdKey(id));
      if data.None? {
        return NotFound;
      }
      r := ParseOne(model, data.value);
    }

    method GetByIdFromElastic(id: string) returns (r: Reply<Doc>)
      modifies elastic
      ensures r == FetchedOne(elastic.contents, esIndex, model, id)
      ensures elastic.log == old(elastic.log) + [Request.Get(esIndex, id)]
    {
      var source := elastic.Get(esIndex, id);
      if source.None? {
        return NotFound;
      }
      r := ToModel(model, source.value);
    }

    method PutByIdToCache(m: Doc, expire: int)
      modifies redis
      ensures redis.entries == old(redis.entries)[ByIdKey(IdOf(m)) := Entry(One(m), expire)]
    {
      redis.Set(ByIdKey(IdOf(m)), One(m), expire);
    }

    method GetBySearch(searchString: string, searchField: string, expire: int) returns (r: Reply<seq<Doc>>)
      modifies redis, elastic
      ensures var s := BySearch(old(redis.entries), elastic.contents, esIndex, esIndex, model,
                                searchString, searchField, expire);
              r == s.reply && redis.entries == s.entries && elastic.log == old(elastic.log) + s.issued
    {
      r := GetBySearchFromCache(esIndex, searchString, model);
      if r.Raised? || (r.Found? && |r.value| > 0) {
        return;
      }
      r := GetBySearchFromElastic(searchString, searchField);
      if r.Raised? {
        return;
      }
      if |r.value| == 0 {
        return NotFound;
      }
      PutBySearchToCache(esIndex, searchString, r.value, expire);
    }

    method GetBySearchFromCache(prefix: string, searchString: string, kind: Kind) returns (r: Reply<seq<Doc>>)
      ensures r == CachedList(redis.entries, SearchKey(prefix, searchString), kind)
    {
      var data := redis.Get(SearchKey(prefix, searchString));
      if data.None? {
        return NotFound;
      }
      r := ParseList(kind, data.value);
    }

    method GetBySearchFromElastic(searchString: string, searchField: string) returns (r: Reply<seq<Doc>>)
      modifies elastic
      ensures r == ToModels(model, elastic.contents.hits(SearchRequest(esIndex, searchField, searchString)))
      ensures elastic.log == old(elastic.log) + [SearchRequest(esIndex, searchField, searchString)]
    {
      var hits := elastic.Search(esIndex, Some(SearchBody(searchField, searchString)), None, None, None);
      r := MapHits(model, hits);
    }

    method PutBySearchToCache(prefix: string, searchString: string, modelList: seq<Doc>, expire: int)
      modifies redis
      ensures redis.entries == old(redis.entries)[SearchKey(prefix, searchString) := Entry(Many(modelList), expire)]
    {
      redis.Set(SearchKey(prefix, searchString), Many(modelList), expire);
    }

    method GetList(pageNumber: int, pageSize: int, expire: int) returns (r: Reply<seq<Doc>>)
      modifies redis, elastic
      ensures var s := PagedList(old(redis.entries), elastic.contents, esIndex, esIndex, model,
                                 pageNumber, pageSize, expire);
              r == s.reply && redis.entries == s.entries && elastic.log == old(elastic.log) + s.issued
    {
      r := GetListFromCache(pageNumber, pageSize, esIndex);
      if r.Raised? || (r.Found? && |r.value| > 0) {
        return;
      }
      r := GetListFromElastic(pageNumber, pageSize, None);
      if r.Raised? {
        return;
      }
      if |r.value| == 0 {
        return NotFound;
      }
      PutListToCache(pageNumber, pageSize, esIndex, r.value, expire);
    }

    method GetListFromCache(pageNumber: int, pageSize: int, prefix: string) returns (r: Reply<seq<Doc>>)
      ensures r == CachedList(redis.entries, ListKey(prefix, pageNumber, pageSize), model)
    {
      var data := redis.Get(ListKey(prefix, pageNumber, pageSize));
      if data.None? {
        return NotFound;
      }
      r := ParseList(model, data.value);
    }

    method GetListFromElastic(pageNumber: int, pageSize: int, query: Option<Body>) returns (r: Reply<seq<Doc>>)
      modifies elastic
      ensures r == ToModels(model, elastic.contents.hits(ListRequest(esIndex, pageNumber, pageSize, query)))
      ensures elastic.log == old(elastic.log) + [ListRequest(esIndex, pageNumber, pageSize, query)]
    {
      var body := map["from" := JInt(pageNumber * pageSize), "size" := JInt(pageSize)];
      if query.Some? && |query.value| > 0 {
        body := body + query.value;
      }
      var hits := elastic.Search(esIndex, Some(body), None, None, None);
      r := MapHits(model, hits);
    }

    method PutListToCache(pageNumber: int, pageSize: int, prefix: string, modelList: seq<Doc>, expire: int)
      modifies redis
      ensures redis.entries == old(redis.entries)[ListKey(prefix, pageNumber, pageSize) := Entry(Many(modelList), expire)]
    {
      redis.Set(ListKey(prefix, pageNumber, pageSize), Many(modelList), expire);
    }
  }
}
