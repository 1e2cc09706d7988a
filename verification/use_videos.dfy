/**
 The `useVideos` composable as a state machine. The five reactive refs are
 the fields of `State`; the two computed values are pure functions of a
 state; `handleLike`, `toggleSort`, `clearSearch`, writes to the exposed
 `searchQuery` ref, and the two halves of `fetchVideos` (the synchronous
 start and the timer callback) are transitions from state to state.
 */
module UseVideos {
  import opened JsStrings
  import opened Selection
  import opened Videos
  import opened ViewSort

  /** The five refs. `totalLikes` is kept as an `int` so that "never
      negative" is a proved invariant rather than a fact of its type. */
  datatype State = State(
    videos: seq<Video>,
    searchQuery: string,
    totalLikes: int,
    isLoading: bool,
    sortByViews: bool
  )

  /** The refs as the composable creates them: no records, empty query,
      no likes, loading, unsorted. The invariant holds from the start, and
      the view is empty. */
  function Initial(): (st: State)
    ensures st.videos == [] && st.searchQuery == [] && st.totalLikes == 0
    ensures st.isLoading && !st.sortByViews
    ensures Consistent(st)
    ensures FilteredVideos(st) == [] && VideosFound(st) == 0
  {
    var st := State([], "", 0, true, false);
    assert |FilteredVideos(st)| == 0 by {
      assert |multiset(FilteredVideos(st))| <= |multiset(st.videos)|;
    }
    st
  }

  /** The filter half of `filteredVideos`: a blank query (empty once
      trimmed) leaves the list alone; any other query keeps the matching
      records in load order, matching on the lower-cased UNTRIMMED query. */
  function FilterStep(videos: seq<Video>, query: string): (r: seq<Video>)
    ensures IsBlank(query) ==> r == videos
    ensures !IsBlank(query) ==> forall k :: 0 <= k < |r| ==> Matches(r[k], query)
    ensures !IsBlank(query) ==> forall v :: v in r <==> v in videos && Matches(v, query)
    ensures multiset(r) <= multiset(videos)
  {
    if IsBlank(query) then videos
    else
      var p := MatchesQuery(query);
      SelectSubMultiset(videos, p);
      forall v
        ensures v in Select(videos, p) <==> v in videos && Matches(v, query)
      {
        SelectMembership(videos, p, v);
      }
      FilterByQuery(videos, query)
  }

  /** `filteredVideos`: filter, then, when sorting is on, a stable sort of
      a copy by views, descending. */
  function FilteredVideos(st: State): (r: seq<Video>)
    ensures !IsBlank(st.searchQuery) ==> forall k :: 0 <= k < |r| ==> Matches(r[k], st.searchQuery)
    ensures !IsBlank(st.searchQuery) ==>
              forall v :: v in r <==> v in st.videos && Matches(v, st.searchQuery)
    ensures st.sortByViews ==> SortedByViews(r)
    ensures multiset(r) <= multiset(st.videos)
    ensures IsBlank(st.searchQuery) ==> multiset(r) == multiset(st.videos)
    ensures IsBlank(st.searchQuery) && !st.sortByViews ==> r == st.videos
  {
    var filtered := FilterStep(st.videos, st.searchQuery);
    if st.sortByViews then
      var r := SortByViews(filtered);
      SortSameMembers(filtered);
      assert forall v :: v in r <==> v in filtered;
      assert forall k :: 0 <= k < |r| ==> r[k] in r;
      r
    else filtered
  }

  /** `videosFound`: the length of the filtered view, which is the number of
      loaded records that match (all of them for a blank query). */
  function VideosFound(st: State): (n: nat)
    ensures n == |FilteredVideos(st)|
    ensures IsBlank(st.searchQuery) ==> n == |st.videos|
    ensures !IsBlank(st.searchQuery) ==>
              n == |MatchingPositions(st.videos, st.searchQuery)|
  {
    var filtered := FilterStep(st.videos, st.searchQuery);
    var r := FilteredVideos(st);
    assert |r| == |filtered|;
    if !IsBlank(st.searchQuery) then
      FilterByQueryCount(st.videos, st.searchQuery);
      |r|
    else |r|
  }

  /** `handleLike`: a like adds one; an unlike subtracts one but never goes
      below zero (the least value that is at least 0 and at least one less).
      Nothing else changes. */
  function HandleLike(st: State, isLiked: bool): (r: State)
    ensures r == st.(totalLikes := r.totalLikes)
    ensures isLiked ==> r.totalLikes == st.totalLikes + 1
    ensures !isLiked ==> && r.totalLikes >= 0
                         && r.totalLikes >= st.totalLikes - 1
                         && (r.totalLikes == 0 || r.totalLikes == st.totalLikes - 1)
  {
    if isLiked then st.(totalLikes := st.totalLikes + 1)
    else st.(totalLikes := if 0 >= st.totalLikes - 1 then 0 else st.totalLikes - 1)
  }

  /** `toggleSort`: flips the sort flag and nothing else. */
  function ToggleSort(st: State): (r: State)
    ensures r.sortByViews != st.sortByViews
    ensures r == st.(sortByViews := r.sortByViews)
  {
    st.(sortByViews := !st.sortByViews)
  }

  /** `clearSearch`: empties the query and nothing else. */
  function ClearSearch(st: State): (r: State)
    ensures r.searchQuery == []
    ensures r == st.(searchQuery := r.searchQuery)
  {
    st.(searchQuery := "")
  }

  /** A write to the exposed `searchQuery` ref (the search box's binding). */
  function SetSearchQuery(st: State, query: string): (r: State)
    ensures r.searchQuery == query
    ensures r == st.(searchQuery := r.searchQuery)
  {
    st.(searchQuery := query)
  }

  /** The synchronous half of `fetchVideos`: the loading flag goes up. */
  function StartFetch(st: State): (r: State)
    ensures r.isLoading
    ensures r == st.(isLoading := r.isLoading)
  {
    st.(isLoading := true)
  }

  /** The timer callback of `fetchVideos`: the sample table replaces the
      records and the loading flag goes down. */
  function CompleteFetch(st: State): (r: State)
    ensures r.videos == MockVideos && !r.isLoading
    ensures r == st.(videos := r.videos, isLoading := r.isLoading)
  {
    st.(videos := MockVideos, isLoading := false)
  }

  /** The events the model considers: the exported operations, writes to
      the `searchQuery` ref, and the two halves of `fetchVideos`. */
  datatype Event =
    | Like(isLiked: bool)
    | SortToggled
    | SearchCleared
    | QueryTyped(query: string)
    | FetchStarted
    | FetchCompleted

  function Step(st: State, e: Event): State {
    match e
    case Like(isLiked) => HandleLike(st, isLiked)
    case SortToggled => ToggleSort(st)
    case SearchCleared => ClearSearch(st)
    case QueryTyped(q) => SetSearchQuery(st, q)
    case FetchStarted => StartFetch(st)
    case FetchCompleted => CompleteFetch(st)
  }

  /** The state after the events `es`, in order. */
  function Run(st: State, es: seq<Event>): State
    decreases |es|
  {
    if es == [] then st else Run(Step(st, es[0]), es[1..])
  }

  /** The invariant of every reachable state: the like counter is not
      negative, the records are either not yet loaded or exactly the sample
      table, and once loading is over the table is there. */
  ghost predicate Consistent(st: State) {
    && st.totalLikes >= 0
    && (st.videos == [] || st.videos == MockVideos)
    && (!st.isLoading ==> st.videos == MockVideos)
  }

  /** Every transition keeps the invariant. */
  lemma StepConsistent(st: State, e: Event)
    requires Consistent(st)
    ensures Consistent(Step(st, e))
  {
  }

  /** Every run from a consistent state ends in a consistent state. */
  lemma {:induction false} RunConsistent(st: State, es: seq<Event>)
    requires Consistent(st)
    ensures Consistent(Run(st, es))
    decreases |es|
  {
    if es != [] {
      StepConsistent(st, es[0]);
      RunConsistent(Step(st, es[0]), es[1..]);
    }
  }

  /** From the initial refs, whatever happens, the counter is never negative,
      the view never shows more than the eight sample records, and a state
      that is not loading shows the sample table. */
  lemma ReachableStates(es: seq<Event>)
    ensures Run(Initial(), es).totalLikes >= 0
    ensures VideosFound(Run(Initial(), es)) <= 8
    ensures !Run(Initial(), es).isLoading ==> Run(Initial(), es).videos == MockVideos
  {
    RunConsistent(Initial(), es);
    var st := Run(Initial(), es);
    assert |st.videos| <= 8;
    FoundAtMostLoaded(st);
  }

  /** The view never shows more records than are loaded. */
  lemma FoundAtMostLoaded(st: State)
    ensures VideosFound(st) <= |st.videos|
  {
    var r := FilteredVideos(st);
    assert |multiset(r)| <= |multiset(st.videos)|;
  }

  /** Any number of unlikes at zero leave the whole state as it was. */
  lemma {:induction false} UnlikesAtZeroChangeNothing(st: State, es: seq<Event>)
    requires st.totalLikes == 0
    requires forall k :: 0 <= k < |es| ==> es[k] == Like(false)
    ensures Run(st, es) == st
    decreases |es|
  {
    if es != [] {
      assert Step(st, es[0]) == st;
      UnlikesAtZeroChangeNothing(st, es[1..]);
    }
  }

  /** A run of likes adds exactly its length to the counter and changes nothing else. */
  lemma {:induction false} LikesAddUp(st: State, es: seq<Event>)
    requires forall k :: 0 <= k < |es| ==> es[k] == Like(true)
    ensures Run(st, es) == st.(totalLikes := st.totalLikes + |es|)
    decreases |es|
  {
    if es != [] {
      LikesAddUp(Step(st, es[0]), es[1..]);
    }
  }

  /** Unliking undoes a like (from any non-negative count). */
  lemma LikeThenUnlike(st: State)
    requires st.totalLikes >= 0
    ensures HandleLike(HandleLike(st, true), false) == st
  {
  }

  /** Liking undoes an unlike exactly when the counter was positive. */
  lemma UnlikeThenLike(st: State)
    requires st.totalLikes >= 0
    ensures HandleLike(HandleLike(st, false), true) == st <==> st.totalLikes > 0
  {
  }

  /** Toggling twice restores the sort flag. */
  lemma ToggleSortInvolution(st: State)
    ensures ToggleSort(ToggleSort(st)) == st
  {
  }

  /** Clearing is idempotent, and clearing an empty query changes nothing. */
  lemma ClearSearchIdempotent(st: State)
    ensures ClearSearch(ClearSearch(st)) == ClearSearch(st)
    ensures st.searchQuery == [] ==> ClearSearch(st) == st
  {
  }

  /** After clearing, the view shows every loaded record: in load order when
      unsorted, as the stable sort of the records when sorted. */
  lemma ClearedViewShowsAll(st: State)
    ensures !st.sortByViews ==> FilteredVideos(ClearSearch(st)) == st.videos
    ensures st.sortByViews ==> FilteredVideos(ClearSearch(st)) == SortByViews(st.videos)
    ensures VideosFound(ClearSearch(st)) == |st.videos|
  {
    assert IsBlank(ClearSearch(st).searchQuery);
  }

  /** A query of whitespace only, including the empty query, does not filter. */
  lemma BlankQueryIsNoOp(videos: seq<Video>, query: string)
    requires forall i :: 0 <= i < |query| ==> IsWhitespace(query[i])
    ensures FilterStep(videos, query) == videos
  {
    BlankIffAllWhitespace(query);
  }

  /** Filter soundness and completeness without sorting: for a non-blank
      query the view is exactly the subsequence of the loaded records that
      match the lower-cased untrimmed query, in load order; nothing matching
      is dropped and nothing is reordered. */
  lemma UnsortedViewIsMatchingSubsequence(st: State)
    requires !st.sortByViews && !IsBlank(st.searchQuery)
    ensures IsOrderedSelection(FilteredVideos(st), st.videos, MatchesQuery(st.searchQuery),
                               Kept(st.videos, MatchesQuery(st.searchQuery)))
    ensures forall v :: v in FilteredVideos(st) <==> v in st.videos && Matches(v, st.searchQuery)
  {
    var p := MatchesQuery(st.searchQuery);
    SelectIsOrderedSelection(st.videos, p);
    forall v
      ensures v in FilteredVideos(st) <==> v in st.videos && Matches(v, st.searchQuery)
    {
      SelectMembership(st.videos, p, v);
    }
  }

  /** With sorting on, the view is the filtered list sorted by views,
      descending: a permutation of it that keeps every group of equal views
      in its filtered order. */
  lemma SortedViewIsStableSortOfFilter(st: State)
    requires st.sortByViews
    ensures var filtered := FilterStep(st.videos, st.searchQuery);
            && SortedByViews(FilteredVideos(st))
            && multiset(FilteredVideos(st)) == multiset(filtered)
            && forall n: nat :: WithViews(FilteredVideos(st), n) == WithViews(filtered, n)
  {
    var filtered := FilterStep(st.videos, st.searchQuery);
    forall n: nat
      ensures WithViews(FilteredVideos(st), n) == WithViews(filtered, n)
    {
      SortStable(filtered, n);
    }
  }

  /** Turning sorting on or off never changes which records are shown or
      how many: the two views are permutations of each other. */
  lemma SortingKeepsTheSameRecords(st: State)
    ensures multiset(FilteredVideos(ToggleSort(st))) == multiset(FilteredVideos(st))
    ensures VideosFound(ToggleSort(st)) == VideosFound(st)
  {
    var r, r' := FilteredVideos(st), FilteredVideos(ToggleSort(st));
    assert |multiset(r)| == |multiset(r')|;
  }
}
