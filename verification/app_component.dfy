/**
 The view-state engine of the club directory page (`AppComponent`): the club
 records, the view state the page keeps, the derived values the template reads
 (`filteredClubs`, `totalClubs`, `showingClubs`, `hasMoreClubs`, `isExpanded`)
 and the transitions the user and the one-shot data load cause.

 The framework's signals become the fields of an immutable `State`; every
 computed becomes a function of that state, and every mutator a function from
 state to state.
 */
module AppComponent {
  import opened JsString
  import opened Seqs

  datatype Contact = Contact(email: string, president: string)

  datatype Club = Club(
    id: int,
    name: string,
    category: string,
    description: string,
    longDescription: string,
    logo: string,
    members: int,
    meetings: string,
    activities: seq<string>,
    contact: Contact)

  /** `number | null` for the expanded club's id. */
  datatype Option<T> = None | Some(value: T)

  datatype State = State(
    clubs: seq<Club>,
    displayedClubs: nat,
    selectedCategory: string,
    searchQuery: string,
    isLoading: bool,
    expandedClubId: Option<int>)

  /** The category value that switches the category filter off. */
  const AllCategories: string := "all"

  /** How many matching clubs are revealed initially and after every filter change. */
  const InitialDisplayed: nat := 6

  /** How many more clubs each "show more" reveals. */
  const ShowMoreStep: nat := 3

  /** The state the page starts in: nothing loaded yet, no filter, six slots. */
  function Init(): State {
    State([], InitialDisplayed, AllCategories, "", true, None)
  }

  // ---------------------------------------------------------------------------
  // Filtering

  /** Independent statement of the search test: the query occurs, ignoring ASCII case, in the field. */
  ghost predicate ContainsIgnoringCase(field: string, query: string) {
    IsSubstring(Lower(query), Lower(field))
  }

  /**
   Independent statement of which clubs the page lists: the category matches
   exactly (or is "all"), and a non-empty query occurs, ignoring case, in the
   name, the short description or the long description.
   */
  ghost predicate Passes(st: State, c: Club) {
    && (st.selectedCategory == AllCategories || c.category == st.selectedCategory)
    && (st.searchQuery == ""
        || ContainsIgnoringCase(c.name, st.searchQuery)
        || ContainsIgnoringCase(c.description, st.searchQuery)
        || ContainsIgnoringCase(c.longDescription, st.searchQuery))
  }

  /** The search test on one club, for a query that has already been lower-cased. */
  predicate MatchesQuery(c: Club, query: string) {
    || Includes(Lower(c.name), query)
    || Includes(Lower(c.description), query)
    || Includes(Lower(c.longDescription), query)
  }

  /** `clubs.filter(club => club.category === category)` */
  function ByCategory(clubs: seq<Club>, category: string): seq<Club> {
    Keep(clubs, (c: Club) => c.category == category)
  }

  /** `clubs.filter(club => <query in name, description or longDescription>)`, query lower-cased. */
  function BySearch(clubs: seq<Club>, query: string): seq<Club> {
    Keep(clubs, c => MatchesQuery(c, query))
  }

  /**
   The matched set: the loaded clubs, narrowed by category unless it is "all",
   then by the lower-cased query unless it is empty. Both computeds of the page
   start from this one list.
   */
  function Matched(st: State): (r: seq<Club>)
    ensures forall c :: c in r <==> c in st.clubs && Passes(st, c)
    ensures |r| <= |st.clubs|
  {
    var query := Lower(st.searchQuery);
    var byCategory :=
      if st.selectedCategory != AllCategories then ByCategory(st.clubs, st.selectedCategory)
      else st.clubs;
    if query != "" then BySearch(byCategory, query) else byCategory
  }

  // ---------------------------------------------------------------------------
  // Computed values read by the template

  /** `filteredClubs`: the first `displayedClubs` clubs of the matched set. */
  function FilteredClubs(st: State): (r: seq<Club>)
    ensures r <= Matched(st)
    ensures |r| == Min(st.displayedClubs, |Matched(st)|)
    ensures forall c :: c in r ==> c in st.clubs && Passes(st, c)
  {
    Take(Matched(st), st.displayedClubs)
  }

  /**
   `totalClubs`: the number of loaded clubs, whatever the filters. It bounds the
   matched set under every choice of category and query, and is reached when
   both filters are off.
   */
  function TotalClubs(st: State): (n: nat)
    ensures forall other: State :: other.clubs == st.clubs ==> |Matched(other)| <= n
    ensures n == |Matched(st.(selectedCategory := AllCategories, searchQuery := ""))|
  {
    |st.clubs|
  }

  /** `showingClubs`: how many clubs the page currently lists. */
  function ShowingClubs(st: State): (n: nat)
    ensures n == Min(st.displayedClubs, |Matched(st)|)
    ensures n <= st.displayedClubs
    ensures n <= TotalClubs(st)
  {
    |FilteredClubs(st)|
  }

  /** `hasMoreClubs`: the matched set is longer than the number of slots. */
  function HasMoreClubs(st: State): (b: bool)
    ensures b <==> ShowingClubs(st) < |Matched(st)|
    ensures !b ==> FilteredClubs(st) == Matched(st)
    ensures b ==> ShowingClubs(st) == st.displayedClubs
  {
    st.displayedClubs < |Matched(st)|
  }

  /**
   `isExpanded(clubId)`: true for the one expanded club. At most one id answers
   true, and none does while nothing is expanded.
   */
  function IsExpanded(st: State, clubId: int): (b: bool)
    ensures b ==> forall other :: other != clubId ==> st.expandedClubId != Some(other)
    ensures st.expandedClubId == None ==> !b
    ensures st.expandedClubId.Some? && !b ==> st.expandedClubId.value != clubId
  {
    st.expandedClubId == Some(clubId)
  }

  // ---------------------------------------------------------------------------
  // Mutators

  /** `onCategoryChange(category)`: select a category and go back to six slots. */
  function OnCategoryChange(st: State, category: string): (r: State)
    ensures r.selectedCategory == category && r.displayedClubs == InitialDisplayed
    ensures r.clubs == st.clubs && r.searchQuery == st.searchQuery
    ensures r.expandedClubId == st.expandedClubId && r.isLoading == st.isLoading
    ensures ShowingClubs(r) == Min(InitialDisplayed, |Matched(r)|)
  {
    st.(selectedCategory := category, displayedClubs := InitialDisplayed)
  }

  /** `onSearchChange(query)`: set the search text and go back to six slots. */
  function OnSearchChange(st: State, query: string): (r: State)
    ensures r.searchQuery == query && r.displayedClubs == InitialDisplayed
    ensures r.clubs == st.clubs && r.selectedCategory == st.selectedCategory
    ensures r.expandedClubId == st.expandedClubId && r.isLoading == st.isLoading
    ensures ShowingClubs(r) == Min(InitialDisplayed, |Matched(r)|)
  {
    st.(searchQuery := query, displayedClubs := InitialDisplayed)
  }

  /**
   `showMore()`: three more slots. The matched set is unchanged, the listed clubs
   only grow (as a prefix), and they stop growing once everything matched is listed.
   */
  function ShowMore(st: State): (r: State)
    ensures r.displayedClubs == st.displayedClubs + ShowMoreStep
    ensures r.clubs == st.clubs && r.selectedCategory == st.selectedCategory
    ensures r.searchQuery == st.searchQuery
    ensures r.expandedClubId == st.expandedClubId && r.isLoading == st.isLoading
    ensures Matched(r) == Matched(st)
    ensures FilteredClubs(st) <= FilteredClubs(r)
    ensures !HasMoreClubs(st) ==> FilteredClubs(r) == FilteredClubs(st)
  {
    st.(displayedClubs := st.displayedClubs + ShowMoreStep)
  }

  /**
   `resetFilters()`: no category, no query, six slots, nothing expanded. The
   matched set becomes every loaded club.
   */
  function ResetFilters(st: State): (r: State)
    ensures r.selectedCategory == AllCategories && r.searchQuery == ""
    ensures r.displayedClubs == InitialDisplayed && r.expandedClubId == None
    ensures r.clubs == st.clubs && r.isLoading == st.isLoading
    ensures Matched(r) == st.clubs
  {
    st.(selectedCategory := AllCategories, searchQuery := "",
        displayedClubs := InitialDisplayed, expandedClubId := None)
  }

  /**
   `toggleDetails(clubId)`: collapse the club if it is the expanded one,
   otherwise expand it (collapsing whichever was open).
   */
  function ToggleDetails(st: State, clubId: int): (r: State)
    ensures IsExpanded(r, clubId) <==> !IsExpanded(st, clubId)
    ensures forall other :: IsExpanded(r, other) ==> other == clubId
    ensures r.clubs == st.clubs && r.displayedClubs == st.displayedClubs
    ensures r.selectedCategory == st.selectedCategory && r.searchQuery == st.searchQuery
    ensures r.isLoading == st.isLoading
  {
    if st.expandedClubId == Some(clubId) then st.(expandedClubId := None)
    else st.(expandedClubId := Some(clubId))
  }

  /** The data load delivered the club list. */
  function OnLoadSuccess(st: State, data: seq<Club>): (r: State)
    ensures r.clubs == data && !r.isLoading
    ensures r.displayedClubs == st.displayedClubs && r.selectedCategory == st.selectedCategory
    ensures r.searchQuery == st.searchQuery && r.expandedClubId == st.expandedClubId
  {
    st.(clubs := data, isLoading := false)
  }

  /** The data load failed: the error is only logged, so loading just ends. */
  function OnLoadError(st: State): (r: State)
    ensures !r.isLoading && r.clubs == st.clubs
    ensures r.displayedClubs == st.displayedClubs && r.selectedCategory == st.selectedCategory
    ensures r.searchQuery == st.searchQuery && r.expandedClubId == st.expandedClubId
  {
    st.(isLoading := false)
  }

  // ---------------------------------------------------------------------------
  // The component as a transition system

  /** Everything that can change the state: user gestures and the two load outcomes. */
  datatype Event =
    | CategoryChanged(category: string)
    | SearchChanged(query: string)
    | ShowMoreClicked
    | ResetClicked
    | DetailsToggled(clubId: int)
    | LoadSucceeded(data: seq<Club>)
    | LoadFailed

  function Step(st: State, e: Event): State {
    match e
    case CategoryChanged(category) => OnCategoryChange(st, category)
    case SearchChanged(query) => OnSearchChange(st, query)
    case ShowMoreClicked => ShowMore(st)
    case ResetClicked => ResetFilters(st)
    case DetailsToggled(clubId) => ToggleDetails(st, clubId)
    case LoadSucceeded(data) => OnLoadSuccess(st, data)
    case LoadFailed => OnLoadError(st)
  }

  function Run(st: State, events: seq<Event>): State
    decreases |events|
  {
    if events == [] then st else Run(Step(st, events[0]), events[1..])
  }
}
