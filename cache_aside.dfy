/**
 * The cache-aside read protocol every service method follows: read the
 * cache; a cached value that decodes and is truthy is returned; otherwise
 * query the index; a falsy answer is Python's None and is not cached; a
 * truthy answer is written to the cache with the entity's expiry and
 * returned. An exception raised on the way (a payload that does not parse,
 * a hit that does not validate) propagates and nothing more happens.
 */
module Protocol {
  import opened Wrappers
  import opened Serialization
  import opened RedisStore
  import opened ElasticSearch

  /** One call's effect: its reply, the cache afterwards, the index requests it issued. */
  datatype Step<T> = Step(reply: Reply<T>, entries: map<string, Entry>, issued: seq<Request>)

  /**
   * `cached` is what decoding the cache read gave, `fetched` what the index
   * query would give, `truthy` Python's `not` on a value, `write` the key and
   * payload a value is cached under.
   */
  function CacheAside<T>(entries: map<string, Entry>, cached: Reply<T>, truthy: T -> bool,
                         request: Request, fetched: Reply<T>, write: T -> (string, Payload),
                         expire: int): (s: Step<T>)
    ensures s.reply.Found? ==> truthy(s.reply.value)
    ensures s.issued == [] || s.issued == [request]
    ensures s.issued == [] <==> cached.Raised? || (cached.Found? && truthy(cached.value))
    ensures s.issued == [] ==> s.reply == cached && s.entries == entries
    ensures s.issued != [] && s.reply.Found? ==>
              s.reply == fetched &&
              s.entries == entries[write(fetched.value).0 := Entry(write(fetched.value).1, expire)]
    ensures s.issued != [] && !s.reply.Found? ==> s.entries == entries
    ensures s.reply.NotFound? <==> s.issued != [] && !fetched.Raised? && !(fetched.Found? && truthy(fetched.value))
    ensures s.issued != [] && (fetched.Raised? || (fetched.Found? && truthy(fetched.value))) ==> s.reply == fetched
  {
    if cached.Raised? || (cached.Found? && truthy(cached.value)) then
      Step(cached, entries, [])
    else if fetched.Raised? then
      Step(fetched, entries, [request])
    else if fetched.Found? && truthy(fetched.value) then
      var (key, payload) := write(fetched.value);
      Step(fetched, entries[key := Entry(payload, expire)], [request])
    else
      Step(NotFound, entries, [request])
  }
}
