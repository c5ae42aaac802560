/** The catalog's single entity, the movie record, and the optional value
    used wherever a lookup can come back empty. */
module Movies {

  /** Some/None, the total replacement for JavaScript's `undefined`. */
  datatype Option<T> = None | Some(value: T)

  /** One catalog entry. Every field a JavaScript number holds is an exact
      `real` here: the rating (0 to 10, one decimal in practice) and the year,
      which the add form produces with `Number(...)` and may therefore be
      fractional or zero. Text fields are plain strings; URLs are not
      validated by the application and are opaque here too. */
  datatype Movie = Movie(
    id: int,
    title: string,
    description: string,
    fullDescription: string,
    posterUrl: string,
    trailerUrl: string,
    rating: real,
    year: real,
    genre: string,
    director: string
  )
}
