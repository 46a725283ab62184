# University club directory: filter and view-state engine

This project models the logic of the club directory page (`AppComponent` in
`src/app/app.ts`) and proves properties of it in Dafny.

The page loads a list of clubs once. It then shows a window over the clubs that
match a category filter and a free-text search. The user can reveal three more
clubs at a time, reset the filters, and expand the details of one club at a time.

The model has four files:

- `js_string.dfy` (module `JsString`): `toLowerCase` on the ASCII range and
  `String.prototype.includes`. `includes` is proved equal to an offset-based
  definition of "is a substring of".
- `seqs.dfy` (module `Seqs`): `Array.prototype.filter` as `Keep` and
  `slice(0, n)` as `Take`. It also holds the facts the engine needs:
  - the positions a filter keeps, as an explicit increasing embedding;
  - two filters fuse into one, and they commute;
  - a slice is a prefix.
- `app_component.dfy` (module `AppComponent`): the records `Club` and `Contact`.
  The view state `State` holds the page's six signals. It also defines:
  - the matched set `Matched`, defined once and used by both computeds;
  - the derived values `filteredClubs`, `totalClubs`, `showingClubs`,
    `hasMoreClubs` and `isExpanded`;
  - the five user mutators and the two load outcomes;
  - `Step` and `Run`, which apply events to a state.
- `app_lemmas.dfy` (module `AppProperties`): properties that relate several
  calls. These cover the in-order selection, commutation, saturation of the
  reveal window, reset idempotence, toggling twice, and the invariants of every
  run of events.

The code filters twice, once for `filteredClubs` and once for `hasMoreClubs`,
with the same text. Both computeds here are defined from the single `Matched`.
Their contracts state how each one relates to it.

Toggling is modelled as the code does it. Calling `toggleDetails(x)` twice
leaves nothing expanded when `x` was not expanded before. When `x` was expanded
before, the first call collapses it and the second expands it again. One might
expect two toggles to always leave nothing expanded; the code does not do that,
and `ToggleTwice` states the actual behaviour.

The load-failure callback only clears `isLoading`. It does not empty `clubs`.
The list is empty after a failure only because nothing was ever loaded.
`FailedLoadShowsNothing` therefore assumes that no load succeeded before.

## Model

| member | source | states |
|---|---|---|
| JsString.Includes | src/app/app.ts:61-63 | `hay.includes(needle)` holds exactly when `needle` occurs at some offset of `hay`. The empty needle is included everywhere. |
| JsString.LowerChar | src/app/app.ts:51 | Each ASCII capital becomes the small letter at the same place in the alphabet. Every other character is kept. |
| JsString.Lower | src/app/app.ts:51 | `toLowerCase` keeps the length, maps each character on its own, and leaves no ASCII capital in the result. |
| JsString.LowerAgrees | src/app/app.ts:51-64 | Two strings lower-case to the same string exactly when they agree character by character up to ASCII case. Comparing lower-cased text is therefore case-insensitive comparison. |
| JsString.LowerIdempotent | src/app/app.ts:51 | Lower-casing a query a second time changes nothing. |
| JsString.SubstringSurvivesLowering | src/app/app.ts:61-63 | If a string occurs in a field, its lower-cased form occurs in the lower-cased field. So lower-casing both sides never loses a match. |
| Seqs.Keep | src/app/app.ts:56 | `filter` keeps exactly the elements of the input that satisfy the predicate, and it never grows the list. |
| Seqs.Take | src/app/app.ts:67 | `slice(0, n)` is a prefix of its input, of length `min(n, length)`. |
| Seqs.KeptPositions | src/app/app.ts:53-65 | The filtered list is spelled out by an increasing list of positions of the input. A position is listed exactly when its element passes. |
| Seqs.KeepIsSubsequence | src/app/app.ts:56 | Filtering never reorders: the result is a subsequence of the input. |
| Seqs.KeepFuse | src/app/app.ts:53-65 | Filtering by `p` and then by `q` is the same as filtering once by `p && q`. |
| Seqs.KeepCommutes | src/app/app.ts:55-65 | Two successive filters can be applied in either order. |
| Seqs.TakeMonotone | src/app/app.ts:67 | A larger slice bound only extends the shorter slice. |
| AppComponent.Matched | src/app/app.ts:48-66 | A club is in the matched set exactly when it is loaded, its category equals the selected one (unless that is "all"), and a non-empty query occurs, ignoring case, in its name, description or long description. |
| AppComponent.FilteredClubs | src/app/app.ts:67 | `filteredClubs` is the prefix of the matched set of length `min(displayedClubs, matched)`. Every club in it passes both filters. |
| AppComponent.ShowingClubs | src/app/app.ts:70-71 | `showingClubs` equals `min(displayedClubs, matched)`. It is at most `displayedClubs` and at most `totalClubs`, the number of loaded clubs. |
| AppComponent.TotalClubs | src/app/app.ts:70 | `totalClubs` bounds the size of the matched set under every category and query over the same clubs, and equals it when both filters are off. `ShowingClubs` is bounded by it. |
| AppComponent.HasMoreClubs | src/app/app.ts:72-92 | `hasMoreClubs` holds exactly when fewer clubs are shown than matched. When it is false, the whole matched set is shown. When it is true, all `displayedClubs` slots are filled. |
| AppComponent.IsExpanded | src/app/app.ts:144-146 | `isExpanded` answers true for at most one id, and for none while nothing is expanded. `ToggleDetails` states, through it, that the toggled club is expanded exactly when it was not before, and that no other club is. |
| AppComponent.OnCategoryChange | src/app/app.ts:115-118 | Sets the category and resets the window to 6. The clubs, query, expanded id and loading flag are unchanged, and `min(6, matched)` clubs are shown. |
| AppComponent.OnSearchChange | src/app/app.ts:120-123 | Sets the query and resets the window to 6. The clubs, category, expanded id and loading flag are unchanged, and `min(6, matched)` clubs are shown. |
| AppComponent.ShowMore | src/app/app.ts:125-127 | Adds exactly 3 slots and changes nothing else. The matched set is unchanged, and the old visible list is a prefix of the new one. Without more to show, the visible list does not change. |
| AppComponent.ResetFilters | src/app/app.ts:129-134 | Sets category "all", query "", 6 slots and nothing expanded. The clubs and loading flag are kept, and every loaded club is matched. |
| AppComponent.ToggleDetails | src/app/app.ts:136-146 | Afterwards the club is expanded exactly when it was not expanded before. No other club is expanded, and every other field is unchanged. |
| AppComponent.OnLoadSuccess | src/app/app.ts:104-107 | Installs the loaded list and ends loading. The filters, window and expanded id are unchanged. |
| AppComponent.OnLoadError | src/app/app.ts:108-111 | Ends loading and changes nothing else. |
| AppProperties.MatchedIsOneFilter | src/app/app.ts:53-65 | The category stage followed by the search stage equals one filter by the combined test `Passes`. |
| AppProperties.MatchedInOrder | src/app/app.ts:53-65 | The matched set consists of the loaded clubs that pass, in their original order, and of nothing else. |
| AppProperties.MatchedIsSubsequence | src/app/app.ts:53-65 | The matched set is a subsequence of the loaded clubs. |
| AppProperties.FiltersCommute | src/app/app.ts:55-65 | The category filter and the search filter give the same list in either order. |
| AppProperties.EmptyQueryGuardIsRedundant | src/app/app.ts:59 | Searching for the empty query keeps every club. The `if (query)` guard therefore never changes the result. |
| AppProperties.NoFilterMatchesEverything | src/app/app.ts:53-65 | With category "all" and an empty query, the matched set is the loaded list itself. |
| AppProperties.UnknownCategoryMatchesNothing | src/app/app.ts:55-57 | A category that no loaded club carries is accepted. It matches nothing, shows nothing and offers no "show more". |
| AppProperties.SearchIgnoresCase | src/app/app.ts:51-64 | Take a loaded club in the selected category. If some text occurs in its name, description or long description, and that text agrees with the query character by character up to ASCII case, the club is matched. |
| AppProperties.RoboticsFoundByUpperCaseQuery | src/app/app.ts:51-64 | Worked instance: with only a club named "Robotics Club" loaded and the query "ROBOT", the matched set is exactly that club. |
| AppProperties.TwoShowMoresRevealSix | src/app/app.ts:125-127 | Two "show more" clicks add six slots. If enough clubs match, six more clubs are shown. |
| AppProperties.ShowMoreSaturates | src/app/app.ts:72-91 | Suppose `hasMoreClubs` is false. Then after any number `n` of "show more" clicks, the matched set is still what is shown, and the window has grown by `3n`. |
| AppProperties.ResetIdempotent | src/app/app.ts:129-134 | The result of a reset depends only on the clubs and the loading flag, so resetting twice equals resetting once. |
| AppProperties.ToggleTwice | src/app/app.ts:136-142 | Two toggles of the same club restore the state when nothing or that club was expanded. When another club was expanded, they leave nothing expanded. |
| AppProperties.InitValid | src/app/app.ts:31-36 | The initial state has 6 slots and nothing loaded, so nothing is matched, shown or pending. |
| AppProperties.StepKeepsValid | src/app/app.ts:102-134 | Every event keeps `displayedClubs >= 6`; the window only grows or is reset to 6. No event restarts loading, and only a successful load changes the club list. |
| AppProperties.RunKeepsValid | src/app/app.ts:102-134 | Along any sequence of events, `displayedClubs >= 6` holds and loading never restarts. The club list changes only when a load succeeds. |
| AppProperties.FailedLoadShowsNothing | src/app/app.ts:108-111 | After a failed load, with no earlier successful one: loading has ended, and the clubs, matched set and visible list are all empty. |

## Left out

- The HTTP request, the `subscribe` plumbing and the `console.error` call (src/app/app.ts:102-113). Only their effect on the state is modelled, as the `LoadSucceeded` and `LoadFailed` events. The error detail is dropped because it never reaches the state.
- Angular signals, `computed` dependency tracking, the empty `effect` and the constructor's wiring. The computeds are plain functions of the state record, re-evaluated on demand.
- `getCategoryClass`, the `categories` display table and `title`. These are presentation strings.
- The template and the stylesheet, which are not part of this model.
- JsString.Lower: `toLowerCase` is modelled on ASCII letters only. Non-ASCII case mappings, which can also change a string's length, are not modelled.
- AppComponent.ShowMore: `displayedClubs` is an unbounded `nat`. JavaScript's double-precision numbers lose precision above 2^53, which no realistic click count reaches.
- AppComponent.ToggleDetails: club ids are unbounded integers. Non-integer numbers and `NaN` are not modelled.
- The uniqueness of `Club.id` is neither enforced nor used by the code, so the model does not assume it.
