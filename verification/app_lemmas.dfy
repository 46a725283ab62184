/**
 Facts about the club directory engine that relate several calls: the matched
 set as one in-order selection, the two filters commuting, the effect of
 successive "show more" clicks, reset idempotence, toggling twice, and the
 invariants every sequence of events keeps.
 */
module AppProperties {
  import opened JsString
  import opened Seqs
  import opened AppComponent

  // ---------------------------------------------------------------------------
  // The matched set

  /** Two filters that decide every club alike return the same list. */
  lemma {:induction false} KeepAgrees(s: seq<Club>, p: Club -> bool, q: Club -> bool)
    requires forall c :: p(c) == q(c)
    ensures Keep(s, p) == Keep(s, q)
  {
    if s != [] {
      KeepAgrees(s[1..], p, q);
    }
  }

  /**
   The two-stage filter of the component is one filter by `Passes`: the category
   stage and the search stage together keep exactly the clubs that pass both
   tests, and drop the rest, in one pass over the loaded list.
   */
  lemma MatchedIsOneFilter(st: State)
    ensures Matched(st) == Keep(st.clubs, c => Passes(st, c))
  {
    var category := st.selectedCategory;
    var query := Lower(st.searchQuery);
    var byCategory := (c: Club) => c.category == category;
    var bySearch := (c: Club) => MatchesQuery(c, query);
    var passes := (c: Club) => Passes(st, c);
    forall c: Club | st.searchQuery == "" ensures bySearch(c) {
      assert query == "";
      assert Includes(Lower(c.name), "");
    }
    if category != AllCategories && query != "" {
      KeepFuse(st.clubs, byCategory, bySearch, passes);
    } else if category != AllCategories {
      KeepAgrees(st.clubs, byCategory, passes);
    } else if query != "" {
      KeepAgrees(st.clubs, bySearch, passes);
    } else {
      KeepAll(st.clubs, passes);
    }
  }

  /**
   The matched set lists, in their original order, exactly the loaded clubs
   that pass both filters: there is an increasing choice of positions in
   `clubs` that spells it out, and a position is chosen iff its club passes.
   */
  lemma MatchedInOrder(st: State)
    ensures exists idx ::
              && IsEmbedding(idx, Matched(st), st.clubs)
              && forall j :: 0 <= j < |st.clubs| ==> (j in idx <==> Passes(st, st.clubs[j]))
  {
    MatchedIsOneFilter(st);
    var idx := KeptPositions(st.clubs, c => Passes(st, c));
    assert IsEmbedding(idx, Matched(st), st.clubs);
  }

  /** Filtering never reorders: the matched set is a subsequence of the loaded clubs. */
  lemma MatchedIsSubsequence(st: State)
    ensures IsSubsequence(Matched(st), st.clubs)
  {
    MatchedInOrder(st);
  }

  /** Applying the category filter and the search filter in either order gives the same list. */
  lemma FiltersCommute(clubs: seq<Club>, category: string, query: string)
    ensures BySearch(ByCategory(clubs, category), query) == ByCategory(BySearch(clubs, query), category)
  {
    KeepCommutes(clubs, (c: Club) => c.category == category, c => MatchesQuery(c, query));
  }

  /** The component's `if (query)` guard is only a shortcut: every club contains the empty query. */
  lemma EmptyQueryGuardIsRedundant(clubs: seq<Club>)
    ensures BySearch(clubs, "") == clubs
  {
    forall k | 0 <= k < |clubs|
      ensures MatchesQuery(clubs[k], "")
    {
      assert Includes(Lower(clubs[k].name), "");
    }
    KeepAll(clubs, c => MatchesQuery(c, ""));
  }

  /** With no category and no query, every loaded club is matched, in order. */
  lemma NoFilterMatchesEverything(st: State)
    requires st.selectedCategory == AllCategories && st.searchQuery == ""
    ensures Matched(st) == st.clubs
  {
  }

  /** A category no loaded club carries is accepted, and matches nothing. */
  lemma UnknownCategoryMatchesNothing(st: State)
    requires st.selectedCategory != AllCategories
    requires forall k :: 0 <= k < |st.clubs| ==> st.clubs[k].category != st.selectedCategory
    ensures Matched(st) == []
    ensures ShowingClubs(st) == 0 && !HasMoreClubs(st)
  {
    var category := st.selectedCategory;
    KeepNone(st.clubs, (c: Club) => c.category == category);
    assert ByCategory(st.clubs, category) == [];
  }

  /**
   Searching is case-insensitive: a club whose name, description or long
   description contains some string `needle` that agrees with the query up to
   ASCII case is matched, whatever case the query is typed in.
   */
  lemma SearchIgnoresCase(st: State, c: Club, needle: string)
    requires c in st.clubs
    requires st.selectedCategory == AllCategories || c.category == st.selectedCategory
    requires EqualIgnoringCase(needle, st.searchQuery)
    requires IsSubstring(needle, c.name) || IsSubstring(needle, c.description)
             || IsSubstring(needle, c.longDescription)
    ensures c in Matched(st)
  {
    LowerAgrees(needle, st.searchQuery);
    if IsSubstring(needle, c.name) {
      SubstringSurvivesLowering(needle, c.name);
    } else if IsSubstring(needle, c.description) {
      SubstringSurvivesLowering(needle, c.description);
    } else {
      SubstringSurvivesLowering(needle, c.longDescription);
    }
  }

  /**
   A worked instance: with a club named "Robotics Club" loaded and the query
   typed as "ROBOT", the club is matched.
   */
  lemma RoboticsFoundByUpperCaseQuery(c: Club, st: State)
    requires c.name == "Robotics Club"
    requires st.clubs == [c] && st.selectedCategory == AllCategories && st.searchQuery == "ROBOT"
    ensures Matched(st) == [c]
  {
    var needle := "Robot";
    assert EqualIgnoringCase(needle, st.searchQuery);
    assert OccursAt(needle, c.name, 0) by {
      assert c.name[0..|needle|] == needle;
    }
    SearchIgnoresCase(st, c, needle);
    assert Matched(st)[0] == c;
  }

  // ---------------------------------------------------------------------------
  // The reveal window

  /**
   Two clicks on "show more" reveal six more clubs when at least that many
   further clubs match.
   */
  lemma TwoShowMoresRevealSix(st: State)
    requires st.displayedClubs + 2 * ShowMoreStep <= |Matched(st)|
    ensures ShowMore(ShowMore(st)).displayedClubs == st.displayedClubs + 6
    ensures ShowingClubs(ShowMore(ShowMore(st))) == st.displayedClubs + 6
  {
  }

  /**
   Once everything matched is listed, no number of further "show more" clicks
   changes what is listed, though the slot count keeps growing.
   */
  lemma {:induction false} ShowMoreSaturates(st: State, n: nat)
    requires !HasMoreClubs(st)
    ensures FilteredClubs(Run(st, seq(n, _ => ShowMoreClicked))) == Matched(st)
    ensures Run(st, seq(n, _ => ShowMoreClicked)).displayedClubs == st.displayedClubs + n * ShowMoreStep
    decreases n
  {
    var clicks := seq(n, _ => ShowMoreClicked);
    if n > 0 {
      var next := ShowMore(st);
      assert !HasMoreClubs(next);
      assert clicks[1..] == seq(n - 1, _ => ShowMoreClicked);
      ShowMoreSaturates(next, n - 1);
    }
  }

  // ---------------------------------------------------------------------------
  // Reset and toggle

  /** Resetting only looks at the loaded clubs and the loading flag; so resetting twice is resetting once. */
  lemma ResetIdempotent(st: State, other: State)
    requires other.clubs == st.clubs && other.isLoading == st.isLoading
    ensures ResetFilters(other) == ResetFilters(st)
    ensures ResetFilters(ResetFilters(st)) == ResetFilters(st)
  {
  }

  /**
   Toggling the same club twice restores the expanded club when it was none or
   that club; when another club was expanded, it leaves nothing expanded.
   */
  lemma ToggleTwice(st: State, clubId: int)
    ensures st.expandedClubId == None || st.expandedClubId == Some(clubId) ==>
              ToggleDetails(ToggleDetails(st, clubId), clubId) == st
    ensures st.expandedClubId != Some(clubId) ==>
              ToggleDetails(ToggleDetails(st, clubId), clubId).expandedClubId == None
  {
  }

  // ---------------------------------------------------------------------------
  // Invariants of every run

  /** The invariant the mutators keep: at least the initial six slots. */
  ghost predicate Valid(st: State) {
    st.displayedClubs >= InitialDisplayed
  }

  lemma InitValid()
    ensures Valid(Init())
    ensures Matched(Init()) == [] && ShowingClubs(Init()) == 0 && !HasMoreClubs(Init())
  {
  }

  lemma StepKeepsValid(st: State, e: Event)
    requires Valid(st)
    ensures Valid(Step(st, e))
    ensures Step(st, e).displayedClubs >= st.displayedClubs || Step(st, e).displayedClubs == InitialDisplayed
    ensures !st.isLoading ==> !Step(st, e).isLoading
    ensures !e.LoadSucceeded? ==> Step(st, e).clubs == st.clubs
  {
  }

  /**
   Along any run from a valid state: the slot count stays at least six, loading
   never starts again once it has ended, and the club list changes only when a
   load succeeds.
   */
  lemma {:induction false} RunKeepsValid(st: State, events: seq<Event>)
    requires Valid(st)
    ensures Valid(Run(st, events))
    ensures !st.isLoading ==> !Run(st, events).isLoading
    ensures (forall k :: 0 <= k < |events| ==> !events[k].LoadSucceeded?) ==>
              Run(st, events).clubs == st.clubs
    decreases |events|
  {
    if events != [] {
      var next := Step(st, events[0]);
      assert Run(st, events) == Run(next, events[1..]);
      StepKeepsValid(st, events[0]);
      RunKeepsValid(next, events[1..]);
      if forall k :: 0 <= k < |events| ==> !events[k].LoadSucceeded? {
        assert !events[0].LoadSucceeded?;
        assert forall k :: 0 <= k < |events[1..]| ==> !events[1..][k].LoadSucceeded? by {
          forall k | 0 <= k < |events[1..]| ensures !events[1..][k].LoadSucceeded? {
            assert events[1..][k] == events[k + 1];
          }
        }
      }
    }
  }

  /** A failed load leaves an empty, finished page: nothing matched, nothing more to show. */
  lemma FailedLoadShowsNothing(events: seq<Event>)
    requires forall k :: 0 <= k < |events| ==> !events[k].LoadSucceeded?
    ensures var st := OnLoadError(Run(Init(), events));
            && !st.isLoading && st.clubs == [] && Matched(st) == []
            && ShowingClubs(st) == 0 && !HasMoreClubs(st)
  {
    RunKeepsValid(Init(), events);
  }
}
