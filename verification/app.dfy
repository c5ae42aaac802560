/** The application root and the home page's own state, threaded through
    pure transitions: the collection, the two filter controls, the modal
    flag and the form's draft. */
module App {
  import opened Movies
  import opened Text
  import opened Sequences
  import opened Catalog
  import MovieForm

  /** Placeholder poster for a record added without one. */
  const DefaultPoster: string := "https://images.unsplash.com/photo-1489599843726-b4fa1d91b30a?w=300&h=450&fit=crop"

  /** Placeholder trailer for a record added without one. */
  const DefaultTrailer: string := "https://www.youtube.com/embed/dQw4w9WgXcQ"

  /** The default-filling step of `handleAddMovie`. "Blank" is JavaScript
      falsiness of a string, i.e. the empty string; whitespace is kept. */
  function WithDefaults(m: Movie): (r: Movie)
    // poster and trailer are never left empty
    ensures r.posterUrl != "" && r.trailerUrl != ""
    ensures r.posterUrl == (if m.posterUrl == "" then DefaultPoster else m.posterUrl)
    ensures r.trailerUrl == (if m.trailerUrl == "" then DefaultTrailer else m.trailerUrl)
    // the long description falls back to the short one
    ensures r.fullDescription == (if m.fullDescription == "" then m.description else m.fullDescription)
    ensures r.fullDescription == "" <==> m.fullDescription == "" && m.description == ""
    // nothing else changes
    ensures r == m.(posterUrl := r.posterUrl, trailerUrl := r.trailerUrl, fullDescription := r.fullDescription)
  {
    var withPoster := if m.posterUrl == "" then m.(posterUrl := DefaultPoster) else m;
    var withTrailer := if withPoster.trailerUrl == "" then withPoster.(trailerUrl := DefaultTrailer) else withPoster;
    if withTrailer.fullDescription == "" then withTrailer.(fullDescription := withTrailer.description)
    else withTrailer
  }

  /** Filling defaults a second time finds nothing left to fill. */
  lemma WithDefaultsIdempotent(m: Movie)
    ensures WithDefaults(WithDefaults(m)) == WithDefaults(m)
  {
  }

  /** `handleAddMovie`: the record, with defaults filled, goes at the end. */
  function AddMovie(movies: seq<Movie>, m: Movie): (r: seq<Movie>)
    ensures |r| == |movies| + 1
    ensures r[..|movies|] == movies
    ensures r[|movies|] == WithDefaults(m)
    ensures forall i :: 0 <= i < |movies| ==> r[i] == movies[i]
  {
    movies + [WithDefaults(m)]
  }

  /** The home page's view of the application: the root's collection, which
      lasts the whole session, and the local state of the home page and its
      form (filters, modal flag, draft), which lasts only while the home page
      is mounted. */
  datatype Ui = Ui(
    movies: seq<Movie>,
    titleFilter: string,
    ratingFilter: real,
    formOpen: bool,
    draft: MovieForm.Draft
  )

  /** The state at start-up over a seed collection: empty search,
      "All Ratings", modal closed, empty draft. */
  function Start(seed: seq<Movie>): (r: Ui)
    // the initial filters let through exactly the non-negative ratings
    ensures forall m :: Matches(m, r.titleFilter, r.ratingFilter) <==> m.rating >= 0.0
    // nothing can be submitted before something is typed
    ensures !MovieForm.CanSubmit(r.draft) && !r.formOpen
    ensures r.movies == seed
  {
    Ui(seed, "", 0.0, false, MovieForm.EmptyDraft)
  }

  /** The cards the home page shows. */
  function Visible(ui: Ui): (r: seq<Movie>)
    // only records of the collection are shown, each passing both filters
    ensures forall m :: m in r ==> m in ui.movies
    ensures forall i :: 0 <= i < |r| ==> Matches(r[i], ui.titleFilter, ui.ratingFilter)
    ensures IsSubsequence(r, ui.movies)
  {
    FilterOrdered(ui.movies, ui.titleFilter, ui.ratingFilter);
    FilterSound(ui.movies, ui.titleFilter, ui.ratingFilter);
    SubsequenceElements(Filter(ui.movies, ui.titleFilter, ui.ratingFilter), ui.movies);
    Filter(ui.movies, ui.titleFilter, ui.ratingFilter)
  }

  /** At start-up every seeded record with a non-negative rating is shown,
      in seed order. */
  lemma StartShowsAll(seed: seq<Movie>)
    requires forall i :: 0 <= i < |seed| ==> seed[i].rating >= 0.0
    ensures Visible(Start(seed)) == seed
  {
    FilterIdentity(seed, 0.0);
  }

  /** Typing in the search box or picking a minimum rating. */
  function SetFilters(ui: Ui, title: string, rating: real): (r: Ui)
    ensures r.titleFilter == title && r.ratingFilter == rating
    ensures r.movies == ui.movies && r.formOpen == ui.formOpen && r.draft == ui.draft
  {
    ui.(titleFilter := title, ratingFilter := rating)
  }

  /** "Add New Movie" opens the modal; the draft is whatever was left in it. */
  function OpenForm(ui: Ui): (r: Ui)
    ensures r.formOpen
    ensures r.(formOpen := ui.formOpen) == ui
  {
    ui.(formOpen := true)
  }

  /** "Cancel" closes the modal without clearing the draft: while the home
      page is mounted the form stays mounted too, hidden, so its text
      survives to the next opening. */
  function Cancel(ui: Ui): (r: Ui)
    ensures !r.formOpen
    ensures r.draft == ui.draft && r.movies == ui.movies
    ensures r.(formOpen := ui.formOpen) == ui
  {
    ui.(formOpen := false)
  }

  /** Reopening after a cancel finds the draft exactly as it was left. */
  lemma CancelKeepsDraft(ui: Ui)
    ensures OpenForm(Cancel(ui)).draft == ui.draft
    ensures ui.formOpen ==> OpenForm(Cancel(ui)) == ui
  {
  }

  /** Typing into a form field. */
  function Edit(ui: Ui, f: MovieForm.Field, value: string): (r: Ui)
    ensures MovieForm.Get(r.draft, f) == value
    ensures forall g :: g != f ==> MovieForm.Get(r.draft, g) == MovieForm.Get(ui.draft, g)
    ensures r.(draft := ui.draft) == ui
  {
    ui.(draft := MovieForm.Change(ui.draft, f, value))
  }

  /** Pressing "Add Movie": the form's submit handler, then, if it handed a
      record on, the root's `handleAddMovie`. */
  function Submit(ui: Ui, id: int, number: string -> real): (r: Ui)
    // rejected: the whole state is untouched
    ensures !MovieForm.CanSubmit(ui.draft) ==> r == ui
    // accepted: exactly one record is appended, earlier records untouched
    ensures MovieForm.CanSubmit(ui.draft) ==>
              && |r.movies| == |ui.movies| + 1
              && r.movies[..|ui.movies|] == ui.movies
              && r.movies[|ui.movies|] == WithDefaults(MovieForm.Record(ui.draft, id, number))
              && r.movies[|ui.movies|].id == id
              && r.draft == MovieForm.EmptyDraft && !r.formOpen
              && r.titleFilter == ui.titleFilter && r.ratingFilter == ui.ratingFilter
  {
    var step := MovieForm.Submit(ui.draft, ui.formOpen, id, number);
    match step.handedOn
    case None => ui.(draft := step.draft, formOpen := step.open)
    case Some(m) => ui.(movies := AddMovie(ui.movies, m), draft := step.draft, formOpen := step.open)
  }

  /** An accepted submission appends the defaulted record to the collection. */
  lemma SubmitAppends(ui: Ui, id: int, number: string -> real)
    requires MovieForm.CanSubmit(ui.draft)
    ensures Submit(ui, id, number).movies == ui.movies + [WithDefaults(MovieForm.Record(ui.draft, id, number))]
  {
  }

  /** Adding a movie never hides or reorders a card already shown: the old
      view is a prefix of the new one, followed by the new record exactly
      when it matches the current filters. */
  lemma SubmitExtendsVisible(ui: Ui, id: int, number: string -> real)
    requires MovieForm.CanSubmit(ui.draft)
    ensures var added := WithDefaults(MovieForm.Record(ui.draft, id, number));
            Visible(Submit(ui, id, number)) ==
              Visible(ui) + (if Matches(added, ui.titleFilter, ui.ratingFilter) then [added] else [])
  {
    var added := WithDefaults(MovieForm.Record(ui.draft, id, number));
    assert Submit(ui, id, number).movies == ui.movies + [added];
    FilterAppend(ui.movies, added, ui.titleFilter, ui.ratingFilter);
  }

  /** After a successful submission with an id not yet in use, the detail
      page for that id shows the new record; an id already in use keeps
      resolving to the older record, since lookup returns the first match. */
  lemma SubmitThenFind(ui: Ui, id: int, number: string -> real)
    requires MovieForm.CanSubmit(ui.draft)
    ensures Find(ui.movies, id).None? ==>
              Find(Submit(ui, id, number).movies, id) == Some(WithDefaults(MovieForm.Record(ui.draft, id, number)))
    ensures Find(ui.movies, id).Some? ==>
              Find(Submit(ui, id, number).movies, id) == Find(ui.movies, id)
  {
    var added := WithDefaults(MovieForm.Record(ui.draft, id, number));
    assert Submit(ui, id, number).movies == ui.movies + [added];
    FindAfterAppend(ui.movies, added, id);
  }
}
