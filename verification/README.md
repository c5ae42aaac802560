# Movie catalog: a Dafny model of the application logic

The application is a single-page React catalog of movies. It lists movie
records as cards, filters them by a title search and a minimum rating, shows
a detail page for one record chosen by its id, and appends new records
through a modal "Add New Movie" form. This project models the logic inside
that UI as pure functions over immutable values, and proves what each step
promises:

- `Stars`: the star strip drawn on each card and on the detail page
  (`renderStars`, present twice and identical). It draws full stars for the
  rating rounded down, one half star when the rating is not whole, and
  `10 - ceil(rating)` empty stars. Loops with a negative bound draw nothing.
- `Text`: ASCII lower-casing and `String.prototype.includes`.
- `Sequences`: order-preserving subsequences, the shape of a filter result.
- `Catalog`: the home page filter (lower-cased title contains the lower-cased
  query, and rating at least the threshold) and the detail page lookup (the
  first record with the id, or the "Movie not found" view).
- `MovieForm`: the form's draft, `handleChange`, and `handleSubmit` with its
  required-field guard.
- `App`: `handleAddMovie`, which fills in default poster, trailer and long
  description and appends the record. Also the home page's state, threaded
  through pure transitions as a record `Ui`: the collection (owned by the
  root component for the whole session), the two filter controls, the modal
  flag and the form's draft. The last four are local state of the home page
  and of the form, so they live only while the home page is mounted.
- `Seed`: the four start-up records, used as fixtures for the documented
  examples.

Ratings and years are exact `real`s. The clock (`Date.now()` as the new id)
and JavaScript's `Number(...)` coercion are parameters of the submit
transition.

Where the program's own text suggests more than its code does, the model
follows the code:

- The id is used as the React list key (`key={movie.id}`, src/App.js:177),
  which presumes unique ids. The code never checks this: the new id comes
  from the clock and duplicates are accepted. Lookup then returns the first
  match. `Catalog.FindUniqueId` states lookup under the extra assumption of
  distinct ids. `App.SubmitThenFind` shows that a reused id keeps resolving
  to the older record.
- The rating input is labelled "Rating (0-10)" and carries `min="0"` and
  `max="10"` (src/App.js:484-493). Nothing enforces them: "Add Movie" is a
  plain `type="button"` inside a `div`, not a form submission, so the
  browser never checks `required`, `min` or `max`. The star loops clamp
  nothing either. `Stars.TenSlotsIffInRange` proves that the strip has
  exactly ten slots precisely for ratings in [0, 10], and more than ten
  otherwise.
- The comment "Add default values if not provided" (src/App.js:582) speaks of
  missing fields. The code tests JavaScript truthiness, so only the empty
  string is replaced. Whitespace is kept.
- The form marks year, genre and director as required in its markup.
  The submit handler checks only title, short description and rating, and the
  model does the same.
- While the home page stays mounted, cancelling the modal does not clear the
  draft: the hidden form keeps its state, so reopening it shows the old text.
  Leaving for a detail page unmounts the home page. Coming back starts the
  filters, the modal flag and the draft afresh (see "## Left out").

## Model

| member | source | states |
|---|---|---|
| Stars.Ceil | src/App.js:74 | `Math.ceil`: the result is the least integer not below the rating |
| Stars.Counts | src/App.js:61-80 | full stars are the whole part of a non-negative rating and zero below zero; a half star exactly when the rating lies strictly above its floor; empty stars are ten minus the rating rounded up, and zero above ten |
| Stars.RenderStars | src/App.js:189-208 | the three loops emit exactly `Slots()` icons: the full stars first, then the half star if any, then the empty stars; at most one half star appears, and only when the rating has a fraction |
| Stars.HalfIffFloorBelowCeil | src/App.js:62-63 | a half star is drawn exactly when floor and ceiling differ, and then by one; a whole rating has floor equal to ceiling |
| Stars.TenSlotsIffInRange | src/App.js:74-77 | full + half + empty is 10 if and only if 0 <= rating <= 10; outside that range more than ten icons are drawn |
| Text.LowerChar | src/App.js:530 | an upper-case ASCII letter becomes the lower-case letter at the same place in the alphabet; every other character is unchanged; the result is never upper-case |
| Text.ToLower | src/App.js:530 | `toLowerCase` keeps the length, leaves no upper-case ASCII letter, and changes nothing but upper-case letters |
| Text.ToLowerIdempotent | src/App.js:530 | lower-casing twice equals lower-casing once |
| Text.Contains | src/App.js:530 | `includes`: the empty query is found in every text, and a query longer than the text in none |
| Text.ContainsIffOccurs | src/App.js:530 | `includes` holds exactly when the query occurs at some position of the text |
| Text.EmptyQueryMatches | src/App.js:524 | the initial empty search text is contained in every title |
| Catalog.FilterOrdered | src/App.js:529-533 | the filter result is an order-preserving subsequence of the collection |
| Catalog.FilterSound | src/App.js:529-533 | every record in the filter result matches: lower-cased title contains the lower-cased query, and rating is at least the threshold |
| Catalog.FilterComplete | src/App.js:529-533 | every matching record is kept as often as it occurs in the collection, and no other record is kept |
| Catalog.Filter | src/App.js:529-533 | the `filter` call itself; its contract here only bounds the length, and the full account is in FilterOrdered, FilterSound and FilterComplete, which together determine the result |
| Catalog.Matches | src/App.js:530-532 | a passing record reaches the threshold; with an empty search box the rating is the only test; a title shorter than the query never passes |
| Catalog.NoResultsIffNoneMatch | src/App.js:164-172 | the "No movies found" view is shown if and only if no record matches the filters |
| Catalog.FilterKeepsAllMatching | src/App.js:529-533 | a collection whose every record matches is returned unchanged |
| Catalog.FilterIdentity | src/App.js:529-533 | an empty query with a threshold no greater than any rating returns the whole collection in order |
| Catalog.FilterIdempotent | src/App.js:529-533 | filtering the filtered list again changes nothing |
| Catalog.FilterMonotone | src/App.js:531 | for t1 <= t2, the result at t2 is a subsequence of the result at t1 |
| Catalog.FilterSameVerdicts | src/App.js:529-533 | two queries that every record judges alike select the same list |
| Catalog.FilterCaseInsensitive | src/App.js:530 | a query and its lower-cased form select the same records |
| Catalog.FilterAppend | src/App.js:592 | filtering the collection with one record appended gives the old result, followed by that record exactly when it matches |
| Catalog.FindIndex | src/App.js:187 | the returned position holds the first record with the id; `None` exactly when no record has it |
| Catalog.Find | src/App.js:214-229 | `None` (the "Movie not found" view) exactly when no record has the id; otherwise a record with that id that is the first such in the collection |
| Catalog.FindUniqueId | src/App.js:187 | when ids are distinct, looking up a record's id returns that very record |
| Catalog.FindAfterAppend | src/App.js:592 | appending a record does not change the result for an id already present; an absent id then resolves to the appended record |
| MovieForm.DraftExtensional | src/App.js:310-320 | two drafts that agree on all nine fields are equal |
| MovieForm.Change | src/App.js:346-351 | `handleChange` sets the named field to the typed value, and every other field keeps its text |
| MovieForm.ChangeDetermined | src/App.js:346-351 | any draft with the new value in the named field and the old text elsewhere is exactly `handleChange`'s result |
| MovieForm.CanSubmit | src/App.js:324 | the guard holds exactly when every required field (title, short description, rating) is non-empty; the empty draft never passes |
| MovieForm.Record | src/App.js:325-330 | the submitted record carries every text field of the draft, the supplied id, and the coerced rating and year |
| MovieForm.ChangeLaws | src/App.js:346-351 | re-typing a field's current text changes nothing; of two edits to one field only the last counts |
| MovieForm.Submit | src/App.js:322-344 | if title, description or rating is empty, nothing happens; otherwise exactly one record is handed on, with the supplied id, the typed text and the coerced rating and year, and the draft is reset and the modal closed |
| App.WithDefaults | src/App.js:582-591 | an empty poster or trailer gets its fixed placeholder; an empty long description becomes the short one; non-empty fields and all other fields are untouched |
| App.WithDefaultsIdempotent | src/App.js:582-591 | filling defaults twice is the same as filling them once |
| App.AddMovie | src/App.js:581-593 | the collection grows by exactly one; all earlier records are unchanged and the defaulted record is last |
| App.Start | src/App.js:524-526 | the initial search and "All Ratings" let through exactly the records with a non-negative rating; the modal is closed and nothing can be submitted yet; the collection is the seed |
| App.Visible | src/App.js:564 | the cards shown are an order-preserving subsequence of the collection, each passing both filters |
| App.StartShowsAll | src/App.js:524-525 | at start-up, with the empty search and "All Ratings", every record with a non-negative rating is shown, in order |
| App.SetFilters | src/App.js:556-561 | the search box and rating selector change only the two filter values |
| App.OpenForm | src/App.js:547 | "Add New Movie" opens the modal and changes nothing else |
| App.Cancel | src/App.js:510 | "Cancel" closes the modal, keeping the draft and the collection |
| App.CancelKeepsDraft | src/App.js:567-571 | while the home page stays mounted, reopening after a cancel finds the draft as it was left |
| App.Edit | src/App.js:370 | typing into a form input changes only that field of the draft |
| App.Submit | src/App.js:322-344 | a rejected submission leaves the whole state unchanged; an accepted one appends exactly one defaulted record carrying the id, leaves earlier records and the filters alone, and clears the draft and closes the modal |
| App.SubmitAppends | src/App.js:592 | an accepted submission leaves the old collection followed by the defaulted record |
| App.SubmitExtendsVisible | src/App.js:529-533 | after adding a movie the cards already shown stay, in order, followed by the new record exactly when it matches the current filters |
| App.SubmitThenFind | src/App.js:187 | after a submission with an unused id the detail page for it shows the new record; a reused id keeps showing the older record |
| Seed.StarExamples | src/App.js:62-77 | ratings 9.3, 7.0, 0 and 10 give (9, half, 0), (7, no half, 3), (0, no half, 10) and (10, no half, 0) |
| Seed.LookupExamples | src/App.js:6-55 | id 1 resolves to the first seed and id 3 to the third; id 9999 resolves to nothing |
| Seed.StartExample | src/App.js:579 | the home page starts by listing the four seeds in order |
| Seed.UnusedIdNotFound | src/App.js:214 | an id other than 1 to 4 finds no seed, so the "Movie not found" view is taken |
| Seed.SubmitAcceptedExample | src/App.js:324-330 | title "X", description "Y", rating "5" with blank optional fields adds one record with placeholder poster and trailer and long description "Y", found again by its id |
| Seed.SubmitRejectedExample | src/App.js:324 | the same draft without a title changes nothing |

## Left out

- Rendering: the JSX, CSS classes, lucide icons and the trailer `iframe` are not modelled. The star strip is a sequence of `Full`/`Half`/`Empty` values.
- Routing: `Router`, `Routes`, `navigate` and `useParams` are not modelled. The route's id arrives as an integer. `parseInt` of the path segment is not modelled, so a non-numeric segment is not covered.
- Clock: the `Date.now()` id is a parameter of `App.Submit`. Nothing is claimed about its uniqueness.
- Coercion: `Number(...)` on the rating and year is the parameter `number`. The model does not parse strings, so `Number('') = 0` and NaN results are not modelled.
- Floating point: ratings and years are exact reals, so binary artefacts such as `9.3 % 1` being 0.3000000000000007 are not modelled. A NaN rating is not modelled either.
- Text.ToLower: lower-cases the ASCII letters only, while JavaScript's `toLowerCase` maps all of Unicode.
- Route changes: opening a detail page unmounts the home page. On return, the React state of the home page and of the form starts again: empty search, "All Ratings", modal closed, empty draft. `Ui` holds these four together with the collection, but only the collection outlives the navigation. No transition for navigating away and back is modelled.
- React: `useState` batching and re-render scheduling are not modelled. Each handler is one synchronous transition on an explicit state.
- `handleAddMovie` mutates its argument object in place. The form never uses that object again, so the model returns a new record instead.
- Seed data: the long descriptions of the four start-up records are cut to their first sentence. They are fixtures only.
