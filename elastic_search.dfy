/**
 * The Elasticsearch client as the services see it. What the index holds is
 * an arbitrary, fixed answer per request (`Contents`); relevance, fuzzy
 * matching and sorting belong to the engine and are not modelled. Every
 * request the services issue is appended to `log`, so "no index query" is
 * "the log did not grow".
 */
module ElasticSearch {
  import opened Wrappers
  import opened Models

  /** The JSON values that request bodies are made of. */
  datatype Json = JStr(s: string) | JInt(i: int) | JObj(fields: map<string, Json>)

  type Body = map<string, Json>

  datatype Request =
    | Get(index: string, id: string)
    | Search(index: string, body: Option<Body>, size: Option<int>, from: Option<int>, sort: Option<string>)

  /**
   * The index contents seen from outside: the `_source` stored under an id
   * of an index, and the `_source` of the hits a search request returns, in
   * the engine's order.
   */
  datatype Contents = Contents(source: (string, string) -> Option<Doc>, hits: Request -> seq<Doc>)

  class Elastic {
    const contents: Contents
    var log: seq<Request>

    constructor (contents: Contents)
      ensures this.contents == contents && log == []
    {
      this.contents := contents;
      log := [];
    }

    /** `await elastic.get(index, id)`, an absent id answering None. */
    method Get(index: string, id: string) returns (source: Option<Doc>)
      modifies this
      ensures source == contents.source(index, id)
      ensures log == old(log) + [Request.Get(index, id)]
    {
      source := contents.source(index, id);
      log := log + [Request.Get(index, id)];
    }

    /** `await elastic.search(index=..., body=..., size=..., from_=..., sort=...)`: the hits' `_source`s. */
    method Search(index: string, body: Option<Body>, size: Option<int>, from: Option<int>, sort: Option<string>)
      returns (hits: seq<Doc>)
      modifies this
      ensures hits == contents.hits(Request.Search(index, body, size, from, sort))
      ensures log == old(log) + [Request.Search(index, body, size, from, sort)]
    {
      var request := Request.Search(index, body, size, from, sort);
      hits := contents.hits(request);
      log := log + [request];
    }
  }
}
