/**
 * Cache payloads. A payload is the JSON text the services store: the
 * `.json()` of one model, or `json.dumps` of a list of models. It is kept
 * as the documents it encodes, so encoding and decoding are exact inverses
 * and only the shape and the kind of the documents decide a decode.
 */
module Serialization {
  import opened Wrappers
  import opened Models

  datatype Payload = One(doc: Doc) | Many(docs: seq<Doc>)

  /** `Model.parse_raw(data)`: a single JSON object of the model's kind. */
  function ParseOne(kind: Kind, p: Payload): (r: Reply<Doc>)
    ensures r.Found? <==> p.One? && KindOf(p.doc) == kind
    ensures r.Found? ==> p == One(r.value)
    ensures !r.Found? ==> r == Raised(ValidationError)
  {
    match p
    case One(d) => ToModel(kind, d)
    case Many(_) => Raised(ValidationError)
  }

  /** `parse_raw_as(list[Model], data)`: a JSON array of documents of the model's kind. */
  function ParseList(kind: Kind, p: Payload): (r: Reply<seq<Doc>>)
    ensures r.Found? <==> p.Many? && forall i :: 0 <= i < |p.docs| ==> KindOf(p.docs[i]) == kind
    ensures r.Found? ==> p == Many(r.value)
    ensures !r.Found? ==> r == Raised(ValidationError)
  {
    match p
    case Many(ds) => ToModels(kind, ds)
    case One(_) => Raised(ValidationError)
  }
}
