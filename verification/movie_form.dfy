/** The "Add New Movie" modal form: a draft of text fields edited one field
    at a time, and a submit handler that hands a record on only when the
    required fields are filled in. */
module MovieForm {
  import opened Movies

  /** The `name` attribute of each input of the form. */
  datatype Field =
    | Title | Description | FullDescription | PosterUrl | TrailerUrl
    | Rating | Year | Genre | Director

  /** The form's state: every input's raw text. */
  datatype Draft = Draft(
    title: string,
    description: string,
    fullDescription: string,
    posterUrl: string,
    trailerUrl: string,
    rating: string,
    year: string,
    genre: string,
    director: string
  )

  /** The draft the form starts with and returns to after a submission. */
  const EmptyDraft := Draft("", "", "", "", "", "", "", "", "")

  function Get(d: Draft, f: Field): string {
    match f
    case Title => d.title
    case Description => d.description
    case FullDescription => d.fullDescription
    case PosterUrl => d.posterUrl
    case TrailerUrl => d.trailerUrl
    case Rating => d.rating
    case Year => d.year
    case Genre => d.genre
    case Director => d.director
  }

  /** Two drafts that agree on every field are the same draft. */
  lemma DraftExtensional(a: Draft, b: Draft)
    requires forall f :: Get(a, f) == Get(b, f)
    ensures a == b
  {
    assert Get(a, Title) == Get(b, Title) && Get(a, Description) == Get(b, Description);
    assert Get(a, FullDescription) == Get(b, FullDescription) && Get(a, PosterUrl) == Get(b, PosterUrl);
    assert Get(a, TrailerUrl) == Get(b, TrailerUrl) && Get(a, Rating) == Get(b, Rating);
    assert Get(a, Year) == Get(b, Year) && Get(a, Genre) == Get(b, Genre);
    assert Get(a, Director) == Get(b, Director);
  }

  /** `handleChange`: the named field takes the typed value, every other
      field keeps its text. */
  function Change(d: Draft, f: Field, value: string): (r: Draft)
    ensures Get(r, f) == value
    ensures forall g :: g != f ==> Get(r, g) == Get(d, g)
  {
    match f
    case Title => d.(title := value)
    case Description => d.(description := value)
    case FullDescription => d.(fullDescription := value)
    case PosterUrl => d.(posterUrl := value)
    case TrailerUrl => d.(trailerUrl := value)
    case Rating => d.(rating := value)
    case Year => d.(year := value)
    case Genre => d.(genre := value)
    case Director => d.(director := value)
  }

  /** The two promises of `Change` leave no freedom: any draft that has the
      new value in the named field and the old text everywhere else is
      `Change`'s result. */
  lemma ChangeDetermined(d: Draft, f: Field, value: string, e: Draft)
    requires Get(e, f) == value
    requires forall g :: g != f ==> Get(e, g) == Get(d, g)
    ensures e == Change(d, f, value)
  {
    DraftExtensional(e, Change(d, f, value));
  }

  /** Re-typing a field's current text changes nothing, and of two edits
      to the same field only the last one counts. */
  lemma ChangeLaws(d: Draft, f: Field, v1: string, v2: string)
    ensures Change(d, f, Get(d, f)) == d
    ensures Change(Change(d, f, v1), f, v2) == Change(d, f, v2)
  {
  }

  /** The guard of `handleSubmit`: title, short description and rating are
      non-empty strings (JavaScript truthiness of a string). No other field
      and no range of the rating is checked. */
  predicate CanSubmit(d: Draft): (b: bool)
    ensures b <==> forall f :: Required(f) ==> Get(d, f) != ""
    ensures b ==> d != EmptyDraft
  {
    assert Required(Title) && Required(Description) && Required(Rating);
    assert Get(d, Title) == d.title && Get(d, Description) == d.description && Get(d, Rating) == d.rating;
    d.title != "" && d.description != "" && d.rating != ""
  }

  /** The fields the submit handler insists on. */
  predicate Required(f: Field) {
    f == Title || f == Description || f == Rating
  }

  /** The record built from the draft: every text field copied, rating and
      year coerced with `number` (JavaScript's `Number`), and the id supplied
      by the caller (the source reads the clock). */
  function Record(d: Draft, id: int, number: string -> real): (m: Movie)
    // `...formData`: every text field of the draft is carried over
    ensures forall f :: !Numeric(f) ==> TextOf(m, f) == Get(d, f)
    ensures m.id == id
    ensures m.rating == number(Get(d, Rating)) && m.year == number(Get(d, Year))
  {
    Movie(id, d.title, d.description, d.fullDescription, d.posterUrl, d.trailerUrl,
          number(d.rating), number(d.year), d.genre, d.director)
  }

  /** The two inputs the submit handler passes through `Number`. */
  predicate Numeric(f: Field) {
    f == Rating || f == Year
  }

  /** The record's text field that the form input `f` fills. */
  function TextOf(m: Movie, f: Field): string
    requires !Numeric(f)
  {
    match f
    case Title => m.title
    case Description => m.description
    case FullDescription => m.fullDescription
    case PosterUrl => m.posterUrl
    case TrailerUrl => m.trailerUrl
    case Genre => m.genre
    case Director => m.director
  }

  /** What one press of "Add Movie" leaves behind: the draft, whether the
      modal is open, and the record handed to the application, if any. */
  datatype FormStep = FormStep(draft: Draft, open: bool, handedOn: Option<Movie>)

  /** `handleSubmit`. */
  function Submit(d: Draft, open: bool, id: int, number: string -> real): (r: FormStep)
    // a missing required field: nothing happens, silently
    ensures !CanSubmit(d) ==> r == FormStep(d, open, None)
    // otherwise exactly one record, carrying the supplied id and the typed
    // text, is handed on; the form is cleared and closed
    ensures CanSubmit(d) ==> r.handedOn.Some? && r.draft == EmptyDraft && !r.open
    ensures r.handedOn.Some? ==>
              var m := r.handedOn.value;
              && m.id == id && m.title == d.title && m.description == d.description
              && m.fullDescription == d.fullDescription && m.posterUrl == d.posterUrl
              && m.trailerUrl == d.trailerUrl && m.genre == d.genre && m.director == d.director
              && m.rating == number(d.rating) && m.year == number(d.year)
  {
    if CanSubmit(d) then FormStep(EmptyDraft, false, Some(Record(d, id, number)))
    else FormStep(d, open, None)
  }
}
