/** The read side of the catalog: the home page's title/rating filter and the
    detail page's lookup by id. */
module Catalog {
  import opened Movies
  import opened Text
  import opened Sequences

  /** The filter predicate of the home page: the lower-cased title contains
      the lower-cased query, and the rating reaches the threshold
      (inclusive). */
  predicate Matches(m: Movie, query: string, threshold: real): (b: bool)
    // only records reaching the threshold pass
    ensures b ==> m.rating >= threshold
    // an empty search box leaves the rating as the only test
    ensures query == "" ==> (b <==> m.rating >= threshold)
    // a title too short to hold the query fails
    ensures |m.title| < |query| ==> !b
  {
    Contains(ToLower(m.title), ToLower(query)) && m.rating >= threshold
  }

  /** `movies.filter(...)` with that predicate. */
  function Filter(movies: seq<Movie>, query: string, threshold: real): (r: seq<Movie>)
    ensures |r| <= |movies|
  {
    if |movies| == 0 then []
    else if Matches(movies[0], query, threshold) then [movies[0]] + Filter(movies[1..], query, threshold)
    else Filter(movies[1..], query, threshold)
  }

  /** The filter keeps the order of the collection: its result is a
      subsequence. */
  lemma {:induction false} FilterOrdered(movies: seq<Movie>, query: string, threshold: real)
    ensures IsSubsequence(Filter(movies, query, threshold), movies)
  {
    if |movies| > 0 {
      var rest := Filter(movies[1..], query, threshold);
      FilterOrdered(movies[1..], query, threshold);
      if Matches(movies[0], query, threshold) {
        SubsequenceCons(movies[0], rest, movies[1..]);
      } else {
        SubsequenceSkip(movies[0], rest, movies[1..]);
      }
    }
  }

  /** Sound: every record the filter returns matches. */
  lemma {:induction false} FilterSound(movies: seq<Movie>, query: string, threshold: real)
    ensures forall i :: 0 <= i < |Filter(movies, query, threshold)| ==>
                          Matches(Filter(movies, query, threshold)[i], query, threshold)
  {
    if |movies| > 0 {
      FilterSound(movies[1..], query, threshold);
    }
  }

  /** Complete, with multiplicity: every matching record is returned as often
      as it occurs in the collection, and no other record is returned. */
  lemma {:induction false} FilterComplete(movies: seq<Movie>, query: string, threshold: real)
    ensures forall m :: multiset(Filter(movies, query, threshold))[m] ==
                          if Matches(m, query, threshold) then multiset(movies)[m] else 0
  {
    if |movies| > 0 {
      FilterComplete(movies[1..], query, threshold);
      assert movies == [movies[0]] + movies[1..];
    }
  }

  /** The "no movies found" view is shown exactly when no record matches. */
  lemma NoResultsIffNoneMatch(movies: seq<Movie>, query: string, threshold: real)
    ensures Filter(movies, query, threshold) == [] <==>
              forall i :: 0 <= i < |movies| ==> !Matches(movies[i], query, threshold)
  {
    var r := Filter(movies, query, threshold);
    FilterComplete(movies, query, threshold);
    if r == [] {
      forall i | 0 <= i < |movies|
        ensures !Matches(movies[i], query, threshold)
      {
        assert movies[i] in multiset(movies);
      }
    } else {
      assert r[0] in multiset(r);
    }
  }

  /** A list whose every record matches comes back unchanged. */
  lemma {:induction false} FilterKeepsAllMatching(movies: seq<Movie>, query: string, threshold: real)
    requires forall i :: 0 <= i < |movies| ==> Matches(movies[i], query, threshold)
    ensures Filter(movies, query, threshold) == movies
  {
    if |movies| > 0 {
      FilterKeepsAllMatching(movies[1..], query, threshold);
      assert movies == [movies[0]] + movies[1..];
    }
  }

  /** Identity case: the empty query with a threshold no greater than any
      rating (the initial "All Ratings" state, for non-negative ratings)
      shows the whole collection in order. */
  lemma FilterIdentity(movies: seq<Movie>, threshold: real)
    requires forall i :: 0 <= i < |movies| ==> threshold <= movies[i].rating
    ensures Filter(movies, "", threshold) == movies
  {
    forall i | 0 <= i < |movies|
      ensures Matches(movies[i], "", threshold)
    {
      EmptyQueryMatches(ToLower(movies[i].title));
    }
    FilterKeepsAllMatching(movies, "", threshold);
  }

  /** Filtering an already filtered list changes nothing. */
  lemma FilterIdempotent(movies: seq<Movie>, query: string, threshold: real)
    ensures Filter(Filter(movies, query, threshold), query, threshold) == Filter(movies, query, threshold)
  {
    FilterSound(movies, query, threshold);
    FilterKeepsAllMatching(Filter(movies, query, threshold), query, threshold);
  }

  /** Raising the threshold can only remove records: the result for the
      higher threshold is a subsequence of the result for the lower one. */
  lemma {:induction false} FilterMonotone(movies: seq<Movie>, query: string, t1: real, t2: real)
    requires t1 <= t2
    ensures IsSubsequence(Filter(movies, query, t2), Filter(movies, query, t1))
  {
    if |movies| > 0 {
      var m := movies[0];
      var high := Filter(movies[1..], query, t2);
      var low := Filter(movies[1..], query, t1);
      FilterMonotone(movies[1..], query, t1, t2);
      if Matches(m, query, t2) {
        SubsequenceCons(m, high, low);
      } else if Matches(m, query, t1) {
        SubsequenceSkip(m, high, low);
      }
    }
  }

  /** Two queries that every record judges alike give the same result. */
  lemma {:induction false} FilterSameVerdicts(movies: seq<Movie>, q1: string, q2: string, threshold: real)
    requires forall m :: Matches(m, q1, threshold) <==> Matches(m, q2, threshold)
    ensures Filter(movies, q1, threshold) == Filter(movies, q2, threshold)
  {
    if |movies| > 0 {
      FilterSameVerdicts(movies[1..], q1, q2, threshold);
    }
  }

  /** The search is case-insensitive in its query: a query and its
      lower-cased form select the same records. */
  lemma FilterCaseInsensitive(movies: seq<Movie>, query: string, threshold: real)
    ensures Filter(movies, query, threshold) == Filter(movies, ToLower(query), threshold)
  {
    ToLowerIdempotent(query);
    FilterSameVerdicts(movies, query, ToLower(query), threshold);
  }

  /** One step of the filter: the head is kept exactly when it matches. */
  lemma FilterStep(movies: seq<Movie>, query: string, threshold: real)
    requires |movies| > 0
    ensures Filter(movies, query, threshold) ==
              (if Matches(movies[0], query, threshold) then [movies[0]] else []) + Filter(movies[1..], query, threshold)
  {
  }

  /** Filtering distributes over appending one record at the end. */
  lemma {:induction false} FilterAppend(movies: seq<Movie>, m: Movie, query: string, threshold: real)
    ensures Filter(movies + [m], query, threshold) ==
              Filter(movies, query, threshold) + (if Matches(m, query, threshold) then [m] else [])
  {
    var all := movies + [m];
    var last := if Matches(m, query, threshold) then [m] else [];
    if |movies| == 0 {
      assert all == [m] && all[1..] == [];
      FilterStep(all, query, threshold);
    } else {
      var head := if Matches(movies[0], query, threshold) then [movies[0]] else [];
      assert all[0] == movies[0] && all[1..] == movies[1..] + [m];
      calc {
        Filter(all, query, threshold);
        { FilterStep(all, query, threshold); }
        head + Filter(movies[1..] + [m], query, threshold);
        { FilterAppend(movies[1..], m, query, threshold); }
        head + (Filter(movies[1..], query, threshold) + last);
        (head + Filter(movies[1..], query, threshold)) + last;
        { FilterStep(movies, query, threshold); }
        Filter(movies, query, threshold) + last;
      }
    }
  }

  /** `k` is the position of the first record carrying `id`. */
  predicate IsFirstWithId(movies: seq<Movie>, id: int, k: int) {
    0 <= k < |movies| && movies[k].id == id && forall j :: 0 <= j < k ==> movies[j].id != id
  }

  /** Position of the first record carrying `id`, if any. */
  function FindIndex(movies: seq<Movie>, id: int): (r: Option<nat>)
    ensures r.Some? ==> IsFirstWithId(movies, id, r.value)
    ensures r.None? <==> forall j :: 0 <= j < |movies| ==> movies[j].id != id
  {
    if |movies| == 0 then None
    else if movies[0].id == id then Some(0)
    else match FindIndex(movies[1..], id)
      case None => None
      case Some(k) => Some(k + 1)
  }

  /** `movies.find(m => m.id === id)` on the detail page: the first record
      with that id, or `None`, which selects the "Movie not found" view. */
  function Find(movies: seq<Movie>, id: int): (r: Option<Movie>)
    ensures r.None? <==> forall j :: 0 <= j < |movies| ==> movies[j].id != id
    ensures r.Some? ==> r.value.id == id && exists k :: IsFirstWithId(movies, id, k) && movies[k] == r.value
  {
    match FindIndex(movies, id)
    case None => None
    case Some(k) => Some(movies[k])
  }

  /** The ids of the collection are pairwise distinct. The application
      never checks this; it is the condition under which an id names a
      record unambiguously. */
  predicate UniqueIds(movies: seq<Movie>) {
    forall i, j :: 0 <= i < j < |movies| ==> movies[i].id != movies[j].id
  }

  /** With distinct ids, looking up a record's id yields that very record. */
  lemma FindUniqueId(movies: seq<Movie>, k: int)
    requires UniqueIds(movies)
    requires 0 <= k < |movies|
    ensures Find(movies, movies[k].id) == Some(movies[k])
  {
  }

  /** Appending a record never changes what an id that is already present
      resolves to; an id that was absent resolves to the appended record. */
  lemma {:induction false} FindAfterAppend(movies: seq<Movie>, m: Movie, id: int)
    ensures Find(movies, id).Some? ==> Find(movies + [m], id) == Find(movies, id)
    ensures Find(movies, id).None? && m.id == id ==> Find(movies + [m], id) == Some(m)
    ensures Find(movies, id).None? && m.id != id ==> Find(movies + [m], id).None?
  {
    var all := movies + [m];
    match FindIndex(movies, id)
    case Some(k) =>
      assert all[k] == movies[k];
      assert forall j :: 0 <= j < |movies| ==> all[j] == movies[j];
    case None =>
      assert forall j :: 0 <= j < |movies| ==> all[j] == movies[j];
      if m.id == id {
        assert all[|movies|].id == id;
        assert FindIndex(all, id).value == |movies|;
      }
  }
}
