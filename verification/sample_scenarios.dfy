/**
 Concrete facts about the composable once the sample table is loaded:
 what the view shows for a few queries, and which record leads when
 sorting by views.
 */
module SampleScenarios {
  import opened JsStrings
  import opened Selection
  import opened Videos
  import opened ViewSort
  import opened UseVideos
  import opened SampleText

  /** The state once mounting has started the fetch and the timer has fired. */
  const Loaded: State := CompleteFetch(StartFetch(Initial()))

  /** Before the fetch completes nothing is shown and the spinner is up; once
      it completes, all eight sample records are shown in load order. */
  lemma LoadLifecycle()
    ensures Initial().isLoading && VideosFound(Initial()) == 0
    ensures StartFetch(Initial()).isLoading && VideosFound(StartFetch(Initial())) == 0
    ensures Loaded.videos == MockVideos && |Loaded.videos| == 8 && !Loaded.isLoading
    ensures FilteredVideos(Loaded) == MockVideos && VideosFound(Loaded) == 8
  {
    assert IsBlank("");
  }

  /** A query that is not blank: it has a character that is not whitespace. */
  lemma NotBlank(q: string, k: int)
    requires 0 <= k < |q| && !IsWhitespace(q[k])
    ensures !IsBlank(q)
  {
    BlankIffAllWhitespace(q);
  }

  /** When a query matches exactly one record of a list, filtering keeps that record alone. */
  lemma SingleMatchFilter(vs: seq<Video>, q: string, j: int)
    requires 0 <= j < |vs|
    requires forall i :: 0 <= i < |vs| ==> (Matches(vs[i], q) <==> i == j)
    ensures FilterByQuery(vs, q) == [vs[j]]
  {
    var p := MatchesQuery(q);
    assert IsOrderedSelection([vs[j]], vs, p, [j]);
    SelectCharacterised(vs, p, [vs[j]]);
  }

  /** Typing a query into the loaded state changes only the query. */
  lemma LoadedWithQuery(q: string)
    ensures SetSearchQuery(Loaded, q) == State(MockVideos, q, 0, false, false)
  {
  }

  /** A non-blank query that matches exactly one record of the loaded list:
      the unsorted view shows that record alone. */
  lemma SingleMatchView(q: string, j: int)
    requires 0 <= j < |MockVideos|
    requires !IsBlank(q)
    requires forall i :: 0 <= i < |MockVideos| ==> (Matches(MockVideos[i], q) <==> i == j)
    ensures FilteredVideos(SetSearchQuery(Loaded, q)) == [MockVideos[j]]
    ensures VideosFound(SetSearchQuery(Loaded, q)) == 1
  {
    LoadedWithQuery(q);
    SingleMatchFilter(MockVideos, q, j);
  }

  /** Lifts per-record match facts to the whole sample table. */
  lemma MatchesExactlyOne(q: string, j: int)
    requires 0 <= j < 8
    requires Matches(Sample1, q) <==> j == 0
    requires Matches(Sample2, q) <==> j == 1
    requires Matches(Sample3, q) <==> j == 2
    requires Matches(Sample4, q) <==> j == 3
    requires Matches(Sample5, q) <==> j == 4
    requires Matches(Sample6, q) <==> j == 5
    requires Matches(Sample7, q) <==> j == 6
    requires Matches(Sample8, q) <==> j == 7
    ensures forall i :: 0 <= i < |MockVideos| ==> (Matches(MockVideos[i], q) <==> i == j)
  {
    forall i | 0 <= i < |MockVideos|
      ensures Matches(MockVideos[i], q) <==> i == j
    {
      if i == 0 { assert MockVideos[i] == Sample1; }
      else if i == 1 { assert MockVideos[i] == Sample2; }
      else if i == 2 { assert MockVideos[i] == Sample3; }
      else if i == 3 { assert MockVideos[i] == Sample4; }
      else if i == 4 { assert MockVideos[i] == Sample5; }
      else if i == 5 { assert MockVideos[i] == Sample6; }
      else if i == 6 { assert MockVideos[i] == Sample7; }
      else { assert MockVideos[i] == Sample8; }
    }
  }

  /** "vue" matches the first record only. */
  lemma VueMatchesFirstOnly()
    ensures forall i :: 0 <= i < |MockVideos| ==> (Matches(MockVideos[i], "vue") <==> i == 0)
  {
    Sample1MatchesVue();
    Sample2MissesVue();
    Sample3MissesVue();
    Sample4MissesVue();
    Sample5MissesVue();
    Sample6MissesVue();
    Sample7MissesVue();
    Sample8MissesVue();
    MatchesExactlyOne("vue", 0);
  }

  /** Searching "vue" in the loaded state shows exactly that one record. */
  lemma VueSearchView()
    ensures FilteredVideos(SetSearchQuery(Loaded, "vue")) == [MockVideos[0]]
    ensures VideosFound(SetSearchQuery(Loaded, "vue")) == 1
  {
    VueMatchesFirstOnly();
    NotBlank("vue", 0);
    SingleMatchView("vue", 0);
  }

  /** "react" matches the third record only. */
  lemma ReactMatchesThirdOnly()
    ensures forall i :: 0 <= i < |MockVideos| ==> (Matches(MockVideos[i], "react") <==> i == 2)
  {
    Sample1MissesReact();
    Sample2MissesReact();
    Sample3MatchesReact();
    Sample4MissesReact();
    Sample5MissesReact();
    Sample6MissesReact();
    Sample7MissesReact();
    Sample8MissesReact();
    MatchesExactlyOne("react", 2);
  }

  /** Searching "react" in the loaded state shows exactly that one record. */
  lemma ReactSearchView()
    ensures FilteredVideos(SetSearchQuery(Loaded, "react")) == [MockVideos[2]]
    ensures VideosFound(SetSearchQuery(Loaded, "react")) == 1
  {
    ReactMatchesThirdOnly();
    NotBlank("react", 0);
    SingleMatchView("react", 2);
  }

  /** The query is not trimmed before matching: "  vue" is not blank, so it
      filters, and with its two leading spaces it no longer matches the one
      record that "vue" matches. */
  lemma PaddedQueryMissesVueRecord()
    ensures !IsBlank("  vue") && Matches(Sample1, "vue") && !Matches(Sample1, "  vue")
  {
    NotBlank("  vue", 2);
    Sample1MatchesVue();
    Sample1MissesPaddedVue();
  }

  lemma Sample1MatchesVue()
    ensures Matches(Sample1, "vue")
  {
    LowerFixesUncased("vue");
    Title1HasVue();
  }

  lemma Sample3MatchesReact()
    ensures Matches(Sample3, "react")
  {
    LowerFixesUncased("react");
    Channel3HasReact();
  }

  lemma Sample2MissesVue()
    ensures !Matches(Sample2, "vue")
  {
    LowerFixesUncased("vue");
    Title2LacksVue();
    Channel2LacksVue();
  }

  lemma Sample3MissesVue()
    ensures !Matches(Sample3, "vue")
  {
    LowerFixesUncased("vue");
    Title3LacksVue();
    Channel3LacksVue();
  }

  lemma Sample4MissesVue()
    ensures !Matches(Sample4, "vue")
  {
    LowerFixesUncased("vue");
    Title4LacksVue();
    Channel4LacksVue();
  }

  lemma Sample5MissesVue()
    ensures !Matches(Sample5, "vue")
  {
    LowerFixesUncased("vue");
    Title5LacksVue();
    Channel5LacksVue();
  }

  lemma Sample6MissesVue()
    ensures !Matches(Sample6, "vue")
  {
    LowerFixesUncased("vue");
    Title6LacksVue();
    Channel6LacksVue();
  }

  lemma Sample7MissesVue()
    ensures !Matches(Sample7, "vue")
  {
    LowerFixesUncased("vue");
    Title7LacksVue();
    Channel7LacksVue();
  }

  lemma Sample8MissesVue()
    ensures !Matches(Sample8, "vue")
  {
    LowerFixesUncased("vue");
    Title8LacksVue();
    Channel8LacksVue();
  }

  lemma Sample1MissesReact()
    ensures !Matches(Sample1, "react")
  {
    LowerFixesUncased("react");
    Title1LacksReact();
    Channel1LacksReact();
  }

  lemma Sample2MissesReact()
    ensures !Matches(Sample2, "react")
  {
    LowerFixesUncased("react");
    Title2LacksReact();
    Channel2LacksReact();
  }

  lemma Sample4MissesReact()
    ensures !Matches(Sample4, "react")
  {
    LowerFixesUncased("react");
    Title4LacksReact();
    Channel4LacksReact();
  }

  lemma Sample5MissesReact()
    ensures !Matches(Sample5, "react")
  {
    LowerFixesUncased("react");
    Title5LacksReact();
    Channel5LacksReact();
  }

  lemma Sample6MissesReact()
    ensures !Matches(Sample6, "react")
  {
    LowerFixesUncased("react");
    Title6LacksReact();
    Channel6LacksReact();
  }

  lemma Sample7MissesReact()
    ensures !Matches(Sample7, "react")
  {
    LowerFixesUncased("react");
    Title7LacksReact();
    Channel7LacksReact();
  }

  lemma Sample8MissesReact()
    ensures !Matches(Sample8, "react")
  {
    LowerFixesUncased("react");
    Title8LacksReact();
    Channel8LacksReact();
  }

  lemma Sample1MissesPaddedVue()
    ensures !Matches(Sample1, "  vue")
  {
    LowerFixesUncased("  vue");
    Title1LacksPaddedVue();
    Channel1LacksPaddedVue();
  }

  /** Searching "  vue" in the loaded state hides the Vue Mastery video,
      which searching the trimmed "vue" shows. */
  lemma PaddedSearchHidesVueRecord()
    ensures Sample1 !in FilteredVideos(SetSearchQuery(Loaded, "  vue"))
    ensures Sample1 in FilteredVideos(SetSearchQuery(Loaded, "vue"))
  {
    PaddedQueryMissesVueRecord();
    VueSearchView();
    LoadedWithQuery("  vue");
  }

  /** When one record has strictly more views than every other, sorting puts it first. */
  lemma SortedLeader(vs: seq<Video>, j: int)
    requires 0 <= j < |vs|
    requires forall i :: 0 <= i < |vs| && i != j ==> vs[i].views < vs[j].views
    ensures SortByViews(vs) != [] && SortByViews(vs)[0] == vs[j]
  {
    var r := SortByViews(vs);
    SortSameMembers(vs);
    assert vs[j] in vs;
    var k :| 0 <= k < |r| && r[k] == vs[j];
    assert r[0] in r;
    var i :| 0 <= i < |vs| && vs[i] == r[0];
    assert r[0].views >= r[k].views;
  }

  /** With sorting on and an empty query, the view is the whole list, sorted. */
  lemma SortedUnqueriedView(st: State)
    requires st.sortByViews && st.searchQuery == ""
    ensures FilteredVideos(st) == SortByViews(st.videos)
  {
  }

  /** Record 3 has strictly more views than any other sample record. */
  lemma Sample3HasMostViews()
    ensures forall i :: 0 <= i < |MockVideos| && i != 2 ==> MockVideos[i].views < MockVideos[2].views
  {
  }

  /** Turning sorting on in the loaded state changes only the sort flag. */
  lemma LoadedSorted()
    ensures ToggleSort(Loaded) == State(MockVideos, "", 0, false, true)
  {
  }

  /** Sorting the sample table by views puts record 3 first. */
  lemma SortedSampleLeader()
    ensures |SortByViews(MockVideos)| == 8 && SortByViews(MockVideos)[0] == MockVideos[2]
  {
    Sample3HasMostViews();
    SortedLeader(MockVideos, 2);
  }

  /** With sorting on and no query, the loaded view is the sorted sample table. */
  lemma LoadedSortedView()
    ensures FilteredVideos(ToggleSort(Loaded)) == SortByViews(MockVideos)
  {
    LoadedSorted();
    SortedUnqueriedView(ToggleSort(Loaded));
  }

  /** With sorting on and no query, the first record shown is id 3, the one
      with 2,100,000 views. */
  lemma SortedViewLeader()
    ensures var r := FilteredVideos(ToggleSort(Loaded));
            |r| == 8 && r[0] == MockVideos[2] && r[0].id == 3 && r[0].views == 2100000
  {
    LoadedSortedView();
    SortedSampleLeader();
  }
}
