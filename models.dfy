/**
 * The record shapes of src/models/models.py. A required field is a plain
 * field; a field declared with a `None` default is an `Option`.
 * `imdb_rating` is a float that nothing in the core computes on; it is a
 * `real` here.
 */
module Models {
  import opened Wrappers

  /** `dict[str, str]`, e.g. a genre `{"id": ..., "name": ...}`. */
  type Dict = map<string, string>

  /** A calendar date, kept as the ISO text pydantic reads and writes. */
  datatype Date = Date(iso: string)

  datatype Film = Film(
    id: string,
    imdbRating: real,
    genre: Option<seq<Dict>>,
    title: string,
    description: Option<string>,
    director: Option<seq<Dict>>,
    actorsNames: Option<seq<string>>,
    writersNames: Option<seq<string>>,
    actors: Option<seq<Dict>>,
    writers: Option<seq<Dict>>)

  datatype FilmShort = FilmShort(id: string, title: string, imdbRating: Option<real>)

  datatype Genre = Genre(id: string, name: string, description: Option<string>)

  datatype Person = Person(
    id: string,
    fullName: string,
    birthDate: Option<Date>,
    role: Option<string>,
    filmIds: seq<string>)

  /** The model class a service is parameterised by (`BaseService.model`). */
  datatype Kind = FilmKind | GenreKind | PersonKind

  /** A document: the `_source` of an index hit, or one element of a cached payload. */
  datatype Doc = FilmDoc(film: Film) | GenreDoc(genre: Genre) | PersonDoc(person: Person)

  function KindOf(d: Doc): Kind
  {
    match d
    case FilmDoc(_) => FilmKind
    case GenreDoc(_) => GenreKind
    case PersonDoc(_) => PersonKind
  }

  /** The `id` field every model has. */
  function IdOf(d: Doc): string
  {
    match d
    case FilmDoc(f) => f.id
    case GenreDoc(g) => g.id
    case PersonDoc(p) => p.id
  }

  /**
   * `Model(**source)`: pydantic builds the model when the source carries the
   * model's required fields. The required fields of Film (id, title,
   * imdb_rating), Genre (id, name) and Person (id, full_name, film_ids) are
   * each missing from the other two models, so a document validates exactly
   * as the model it was written from.
   */
  function ToModel(kind: Kind, source: Doc): (r: Reply<Doc>)
    ensures r.Found? <==> KindOf(source) == kind
    ensures r.Found? ==> r.value == source
    ensures !r.Found? ==> r == Raised(ValidationError)
  {
    if KindOf(source) == kind then Found(source) else Raised(ValidationError)
  }

  /**
   * Validating a list of sources first to last, as `list[Model]` parsing and
   * the `for d in hits: result.append(Model(**d))` loops do: the first
   * invalid source raises.
   */
  function ToModels(kind: Kind, sources: seq<Doc>): (r: Reply<seq<Doc>>)
    ensures r.Found? <==> forall i :: 0 <= i < |sources| ==> KindOf(sources[i]) == kind
    ensures r.Found? ==> r.value == sources
    ensures !r.Found? ==> r == Raised(ValidationError)
    decreases |sources|
  {
    if sources == [] then Found([])
    else
      match ToModels(kind, sources[..|sources| - 1])
      case Found(init) =>
        (match ToModel(kind, sources[|sources| - 1])
         case Found(d) => Found(init + [d])
         case other => Raised(ValidationError))
      case other => Raised(ValidationError)
  }
}
