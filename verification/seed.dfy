/** The four records the application starts with (long descriptions cut to
    their first sentence), and the documented examples: four star strips,
    lookups of a present and an absent id, the start-up view, and one
    accepted and one rejected submission. */
module Seed {
  import opened Movies
  import opened Stars
  import opened Catalog
  import opened App
  import MovieForm

  const Shawshank := Movie(1, "The Shawshank Redemption",
    "Two imprisoned men bond over a number of years, finding solace and eventual redemption through acts of common decency.",
    "Framed in the 1940s for the double murder of his wife and her lover, upstanding banker Andy Dufresne begins a new life at the Shawshank prison, where he puts his accounting skills to work for an amoral warden.",
    "https://images.unsplash.com/photo-1489599843726-b4fa1d91b30a?w=300&h=450&fit=crop",
    "https://www.youtube.com/embed/NmzuHjWmXOc",
    9.3, 1994.0, "Drama", "Frank Darabont")

  const DarkKnight := Movie(2, "The Dark Knight",
    "When the menace known as the Joker wreaks havoc and chaos on the people of Gotham, Batman must accept one of the greatest psychological and physical tests.",
    "Batman raises the stakes in his war on crime.",
    "https://images.unsplash.com/photo-1518676590629-3dcbd9c5a5c9?w=300&h=450&fit=crop",
    "https://www.youtube.com/embed/EXeTwQWrcwY",
    9.0, 2008.0, "Action, Crime, Drama", "Christopher Nolan")

  const PulpFiction := Movie(3, "Pulp Fiction",
    "The lives of two mob hitmen, a boxer, a gangster and his wife intertwine in four tales of violence and redemption.",
    "A burger-loving hit man, his philosophical partner, a drug-addled gangster's moll and a washed-up boxer converge in this sprawling, comedic crime caper.",
    "https://images.unsplash.com/photo-1440404653325-ab127d49abc1?w=300&h=450&fit=crop",
    "https://www.youtube.com/embed/s7EdQ4FqbhY",
    8.9, 1994.0, "Crime, Drama", "Quentin Tarantino")

  const Inception := Movie(4, "Inception",
    "A thief who steals corporate secrets through the use of dream-sharing technology is given the inverse task of planting an idea.",
    "Dom Cobb is a skilled thief, the absolute best in the dangerous art of extraction, stealing valuable secrets from deep within the subconscious during the dream state, when the mind is at its most vulnerable.",
    "https://images.unsplash.com/photo-1536440136628-849c177e76a1?w=300&h=450&fit=crop",
    "https://www.youtube.com/embed/YoHD9XEInc0",
    8.7, 2010.0, "Action, Sci-Fi, Thriller", "Christopher Nolan")

  const InitialMovies: seq<Movie> := [Shawshank, DarkKnight, PulpFiction, Inception]

  /** The four documented star strips. */
  lemma StarExamples()
    ensures Counts(9.3) == StarCounts(9, true, 0)
    ensures Counts(7.0) == StarCounts(7, false, 3)
    ensures Counts(0.0) == StarCounts(0, false, 10)
    ensures Counts(10.0) == StarCounts(10, false, 0)
  {
  }

  /** Lookup of a seeded id finds its record; an unknown id finds nothing. */
  lemma LookupExamples()
    ensures Find(InitialMovies, 1) == Some(Shawshank)
    ensures Find(InitialMovies, 3) == Some(PulpFiction)
    ensures Find(InitialMovies, 9999) == None
  {
    assert UniqueIds(InitialMovies);
    FindUniqueId(InitialMovies, 0);
    FindUniqueId(InitialMovies, 2);
  }

  /** The seeds use the ids 1 to 4; any other id finds nothing. */
  lemma UnusedIdNotFound(id: int)
    requires id < 1 || id > 4
    ensures Find(InitialMovies, id) == None
  {
    var ms := InitialMovies;
    assert ms[0].id == 1 && ms[1].id == 2 && ms[2].id == 3 && ms[3].id == 4;
  }

  /** The home page initially lists all four seeds in order. */
  lemma StartExample()
    ensures Visible(Start(InitialMovies)) == InitialMovies
  {
    var ms := InitialMovies;
    assert |ms| == 4;
    assert ms[0].rating >= 0.0 && ms[1].rating >= 0.0 && ms[2].rating >= 0.0 && ms[3].rating >= 0.0;
    StartShowsAll(ms);
  }

  /** A draft with title "X", description "Y" and rating "5", all optional
      fields blank, adds one defaulted record with the supplied id, found
      again by that id. */
  lemma SubmitAcceptedExample(number: string -> real)
    ensures var ui := Ui(InitialMovies, "", 0.0, true,
                        MovieForm.EmptyDraft.(title := "X", description := "Y", rating := "5"));
            var after := Submit(ui, 1700000000000, number);
            && |after.movies| == 5
            && after.movies[4] == Movie(1700000000000, "X", "Y", "Y", DefaultPoster, DefaultTrailer,
                                        number("5"), number(""), "", "")
            && Find(after.movies, 1700000000000) == Some(after.movies[4])
  {
    var draft := MovieForm.EmptyDraft.(title := "X", description := "Y", rating := "5");
    var ui := Ui(InitialMovies, "", 0.0, true, draft);
    var id := 1700000000000;
    var added := Movie(id, "X", "Y", "Y", DefaultPoster, DefaultTrailer, number("5"), number(""), "", "");
    var after := Submit(ui, id, number);
    assert after.movies == InitialMovies + [added] by {
      assert MovieForm.CanSubmit(draft);
      assert WithDefaults(MovieForm.Record(draft, id, number)) == added;
      SubmitAppends(ui, id, number);
    }
    assert Find(after.movies, id) == Some(added) by {
      UnusedIdNotFound(id);
      FindAfterAppend(InitialMovies, added, id);
    }
  }

  /** The same draft without a title changes nothing. */
  lemma SubmitRejectedExample(number: string -> real)
    ensures var ui := Ui(InitialMovies, "", 0.0, true,
                        MovieForm.EmptyDraft.(description := "Y", rating := "5"));
            Submit(ui, 1700000000000, number) == ui
  {
  }
}
