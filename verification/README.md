# useVideos — a Dafny model

This project models the `useVideos` composable of a Vue video-browser app
(`src/composables/useVideos.js`). The composable holds five refs: the loaded
records, the search query, a like counter, a loading flag and a sort flag. It
derives two computed values: the filtered view and its length. It offers
`handleLike`, `toggleSort`, `clearSearch` and `fetchVideos`, which loads a
fixed table of eight sample videos after a timer.

The model is pure and functional. The refs are the fields of a `State`
datatype. The computed values are functions of a state. Every operation,
including a write to the bound `searchQuery` ref, is a transition from state
to state. `fetchVideos` is split into two transitions: the synchronous start,
and the timer callback that completes it.

The modules:

- `JsStrings`: the three string primitives the filter uses.
  - `trim` strips the full ECMA-262 WhiteSpace and LineTerminator set.
  - `toLowerCase` folds ASCII letters only.
  - `includes` is a substring search.
  - Each is proved against an independent description: the trimmed-off part
    is all whitespace, and `includes` holds exactly when there is an
    occurrence at some index.
- `Selection`: `Array.prototype.filter` as `Select`. It is proved to be the
  one and only ordered selection of the satisfying elements.
- `Videos`: the video record, the sample table and the match test.
- `ViewSort`: the `sort((a, b) => b.views - a.views)` step, as a stable
  insertion sort. It is proved sorted, a permutation and stable. It is also
  proved to be the only sequence with those three properties, so any stable
  sort gives the same view.
- `UseVideos`: the state, the computed values, the operations, and an event
  loop with its reachable-state invariant.
- `SampleText` and `SampleScenarios`: concrete facts about the eight sample
  records — what searching "vue", "react" and "  vue" shows, and which record
  leads when sorting by views.

Two behaviours of the code are easy to miss, and the model keeps both as
written:

- The query is trimmed only to decide whether to filter at all. The match
  itself uses the lower-cased query WITHOUT trimming. A query such as "  vue"
  therefore filters, but it no longer finds "Learn Vue 3 …", which "vue"
  finds (`SampleScenarios.PaddedSearchHidesVueRecord`).
- A query made only of whitespace, such as a single tab, does not filter at
  all. Every record is shown, although none contains a tab
  (`UseVideos.BlankQueryIsNoOp`). For a blank query the view shows every
  record, so the match guarantee in `UseVideos.FilteredVideos` holds only for
  non-blank queries.

## Model

| member | source | states |
|---|---|---|
| JsStrings.TrimStart | src/composables/useVideos.js:72 | The result is a suffix of the input. Everything cut off is whitespace. The result does not start with whitespace. |
| JsStrings.TrimEnd | src/composables/useVideos.js:72 | The result is a prefix of the input. Everything cut off is whitespace. The result does not end with whitespace. |
| JsStrings.TrimIsInfix | src/composables/useVideos.js:72 | `trim()` returns an infix of the query with only whitespace on either side of it. |
| JsStrings.Trim | src/composables/useVideos.js:72 | `trim()` gives a string no longer than the query that neither starts nor ends with whitespace. With `TrimIsInfix` this fixes the result. |
| JsStrings.IsBlank | src/composables/useVideos.js:72 | The trim test is falsy for the empty query, and a non-empty query for which it is falsy starts and ends with whitespace. `BlankIffAllWhitespace` gives the full characterisation. |
| JsStrings.BlankIffAllWhitespace | src/composables/useVideos.js:72 | The trim test is falsy (the trimmed query is empty) exactly when every character of the query is whitespace. |
| JsStrings.Lower | src/composables/useVideos.js:73-76 | Each character is `LowerChar` of the input's character: ASCII capitals become lower-case, every other character is unchanged, and the length is kept. |
| JsStrings.Includes | src/composables/useVideos.js:75-76 | The empty string is included in every string, and nothing longer than the text is included. `IncludesIffOccurs` gives the full characterisation. |
| JsStrings.LowerIdempotent | src/composables/useVideos.js:73-76 | Lower-casing twice is the same as lower-casing once. |
| JsStrings.IncludesIffOccurs | src/composables/useVideos.js:75-76 | `includes` holds exactly when the query occurs at some index of the text. |
| JsStrings.AbsentCharNotIncluded | src/composables/useVideos.js:75-76 | A text that lacks some character of the query does not include the query. |
| JsStrings.AbsentPairNotIncluded | src/composables/useVideos.js:75-76 | A text that lacks some two adjacent characters of the query does not include the query. |
| Selection.Select | src/composables/useVideos.js:74-77 | The filter's result holds only elements of the input that satisfy the callback, and is no longer than the input. |
| Selection.SelectCharacterised | src/composables/useVideos.js:74-77 | A list is the filter's result exactly when some increasing index sequence picks out precisely the satisfying elements: none dropped, none added, none reordered. |
| Selection.SelectMembership | src/composables/useVideos.js:74-77 | An element survives the filter exactly when it is in the input and satisfies the callback. |
| Selection.SelectAppend | src/composables/useVideos.js:74-77 | Filtering a concatenation is the concatenation of the filtered parts. |
| Selection.SelectCount | src/composables/useVideos.js:74-77 | The filter keeps as many elements as there are satisfying positions. |
| Selection.SelectSubMultiset | src/composables/useVideos.js:74-77 | The filter never adds occurrences: its result is a sub-multiset of the input. |
| Videos.MockVideosIds | src/composables/useVideos.js:10-67 | The sample table has eight records. Record `i` has id `i + 1`, so the ids are distinct. |
| Videos.FilterByQuery | src/composables/useVideos.js:73-77 | Every record kept matches the lower-cased query in its title or channel, and comes from the input. |
| Videos.FilterByQueryCount | src/composables/useVideos.js:74-77 | The filter keeps as many records as there are matching positions. |
| Videos.MatchesIgnoresQueryCase | src/composables/useVideos.js:73 | A query and its lower-case form match the same records. |
| Videos.MatchesIgnoresRecordCase | src/composables/useVideos.js:75-76 | A record and its lower-cased copy match the same queries. |
| Videos.Matches | src/composables/useVideos.js:74-77 | The filter callback: the empty query matches every record, and a query longer than both the title and the channel matches nothing. |
| ViewSort.CompareByViews | src/composables/useVideos.js:81 | The comparator is negative when `a` has more views (so `a` goes first), zero on a tie, and positive when `b` has more views. |
| ViewSort.SortByViews | src/composables/useVideos.js:80-81 | The sorted view has descending views and is a permutation of its input. |
| ViewSort.SortedIffAdjacent | src/composables/useVideos.js:81 | Descending on every pair is the same as descending on neighbours. That is the same as the comparator `b.views - a.views` never being positive for a neighbouring pair. |
| ViewSort.SortSameMembers | src/composables/useVideos.js:81 | Sorting keeps exactly the records it was given. |
| ViewSort.SortStable | src/composables/useVideos.js:81 | Records with equal views keep their input order. |
| ViewSort.SortCharacterised | src/composables/useVideos.js:80-81 | A list is the sorted view exactly when it is descending by views and every group of equal views is in input order. |
| ViewSort.SortIdempotent | src/composables/useVideos.js:80-81 | Sorting an already sorted list changes nothing. |
| UseVideos.FilterStep | src/composables/useVideos.js:70-78 | A blank query leaves the list as it is. Any other query keeps exactly the loaded records that match: a record is kept if and only if it is in the list and matches. Either way the result is a sub-multiset of the list. |
| UseVideos.FilteredVideos | src/composables/useVideos.js:69-85 | With a non-blank query, a record is shown if and only if it is loaded and matches, sorted or not. With sorting on, the view is descending by views. With a blank query, the view is a permutation of the records, and it is the records themselves when sorting is off. |
| UseVideos.UnsortedViewIsMatchingSubsequence | src/composables/useVideos.js:69-85 | Unsorted and with a query, the view is exactly the matching records in load order. A record is shown exactly when it is loaded and matches. |
| UseVideos.SortedViewIsStableSortOfFilter | src/composables/useVideos.js:80-84 | Sorted, the view is a descending permutation of the filtered list that keeps each equal-views group in filtered order. |
| UseVideos.SortingKeepsTheSameRecords | src/composables/useVideos.js:80-87 | Turning sorting on or off never changes which records are shown, nor how many. |
| UseVideos.BlankQueryIsNoOp | src/composables/useVideos.js:72 | A query of whitespace only, including the empty query, does not filter. |
| UseVideos.FoundAtMostLoaded | src/composables/useVideos.js:87 | The count never exceeds the number of loaded records. |
| UseVideos.VideosFound | src/composables/useVideos.js:87 | The count is the length of the view. For a blank query it is the number of loaded records. Otherwise it is the number of matching positions. |
| UseVideos.HandleLike | src/composables/useVideos.js:89-95 | A like adds one. An unlike gives the maximum of 0 and the count minus one. Nothing else in the state changes. |
| UseVideos.LikeThenUnlike | src/composables/useVideos.js:89-95 | From a non-negative count, an unlike undoes a like. |
| UseVideos.UnlikeThenLike | src/composables/useVideos.js:89-95 | A like undoes an unlike exactly when the count was positive. |
| UseVideos.UnlikesAtZeroChangeNothing | src/composables/useVideos.js:92-93 | Any number of unlikes at zero leave the state unchanged. |
| UseVideos.LikesAddUp | src/composables/useVideos.js:90-91 | A run of `n` likes adds exactly `n` and changes nothing else. |
| UseVideos.ToggleSort | src/composables/useVideos.js:97-99 | The sort flag flips and nothing else changes. |
| UseVideos.ToggleSortInvolution | src/composables/useVideos.js:97-99 | Toggling twice restores the state. |
| UseVideos.ClearSearch | src/composables/useVideos.js:101-103 | The query becomes empty and nothing else changes. |
| UseVideos.ClearSearchIdempotent | src/composables/useVideos.js:101-103 | Clearing twice is clearing once. Clearing an empty query changes nothing. |
| UseVideos.ClearedViewShowsAll | src/composables/useVideos.js:69-87 | After clearing, the view shows every loaded record: in load order when unsorted, stably sorted when sorted. |
| UseVideos.SetSearchQuery | src/composables/useVideos.js:5 | A write to the query ref sets the query and nothing else. |
| UseVideos.StartFetch | src/composables/useVideos.js:105-106 | Starting a fetch raises the loading flag and changes nothing else. |
| UseVideos.CompleteFetch | src/composables/useVideos.js:108-111 | The timer callback installs the sample table and lowers the loading flag, and changes nothing else. |
| UseVideos.Initial | src/composables/useVideos.js:4-8 | The refs start with no records, an empty query, 0 likes, loading on and sorting off. The invariant of reachable states holds, and the view is empty. |
| UseVideos.StepConsistent | src/composables/useVideos.js:4-8 | Every operation keeps three facts: the count is not negative, the records are either none or the sample table, and the table is loaded whenever loading is over. |
| UseVideos.RunConsistent | src/composables/useVideos.js:4-8 | Any sequence of operations keeps those facts. |
| UseVideos.ReachableStates | src/composables/useVideos.js:4-8 | From the initial refs, after any operations: the count is never negative, at most eight records are shown, and when not loading the sample table is loaded. |
| SampleScenarios.LoadLifecycle | src/composables/useVideos.js:7 | Initially the spinner is up and nothing is shown. After the fetch completes, all eight records are shown in load order and loading is off. |
| SampleScenarios.SingleMatchFilter | src/composables/useVideos.js:74-77 | When exactly one record matches, filtering keeps that record alone. |
| SampleScenarios.VueMatchesFirstOnly | src/composables/useVideos.js:10-67 | Of the sample records, "vue" matches only "Learn Vue 3 Composition API in 10 Minutes". |
| SampleScenarios.VueSearchView | src/composables/useVideos.js:69-87 | Searching "vue" after loading shows exactly that record, and the count is 1. |
| SampleScenarios.ReactMatchesThirdOnly | src/composables/useVideos.js:10-67 | Of the sample records, "react" matches only the React Pro video. |
| SampleScenarios.ReactSearchView | src/composables/useVideos.js:69-87 | Searching "react" after loading shows exactly that record, and the count is 1. |
| SampleScenarios.PaddedQueryMissesVueRecord | src/composables/useVideos.js:72-76 | "  vue" is not blank, and unlike "vue" it does not match the Vue Mastery record, because the match uses the untrimmed query. |
| SampleScenarios.PaddedSearchHidesVueRecord | src/composables/useVideos.js:69-85 | Searching "  vue" hides the record that searching "vue" shows. |
| SampleScenarios.SortedLeader | src/composables/useVideos.js:81 | A record with strictly more views than every other is first after sorting. |
| SampleScenarios.SortedViewLeader | src/composables/useVideos.js:80-82 | Sorted and with no query, the loaded view shows eight records, and the first is id 3 with 2,100,000 views. |

## Left out

- Vue reactivity is not modelled. The computed values are recomputed from the state on demand. `watch` and `onMounted` are left out. The mount-time fetch is the `FetchStarted` event; runs need not begin with it.
- `console.log` in the query watcher is a side effect with no bearing on the state.
- Timer timing and ordering are not modelled. The timer callback of `fetchVideos` is an event that may occur at any time; a pending timer is not tracked, so runs where it fires without a preceding start are included as well.
- JsStrings.Lower: folds ASCII letters only, because full Unicode case mapping (special casing, final sigma, length-changing mappings) is outside this model. Matching on non-ASCII letters therefore differs from `toLowerCase` in both directions. The model matches "Σ" inside "ΑΣ", but JavaScript lower-cases them to "σ" and "ας" (final sigma), which do not match. JavaScript matches "ä" inside "Ä", but the model leaves "Ä" unchanged, so it does not match. The model also keeps every string's length, while `toLowerCase` can change it ("İ" becomes "i̇").
- Numbers are not JavaScript doubles. `views` is a natural number and `totalLikes` an unbounded integer. Rounding above 2^53 is not modelled.
- `thumbnail` is an opaque string that no operation reads.
- Writes from outside to `videos`, `totalLikes`, `isLoading` and `sortByViews` are not modelled, although the `return` object exposes them as writable refs; only `searchQuery` writes appear, as `SetSearchQuery`. `UseVideos.ReachableStates` and `UseVideos.RunConsistent` assume that only the composable's own operations and `searchQuery` writes change the state. For example, an outside write of -3 to `totalLikes` followed by a like would give -2.
- Strings are sequences of Unicode code points, not UTF-16 code units. For well-formed strings `trim` and `includes` agree with JavaScript. Strings with lone surrogates cannot be represented.
- UseVideos.HandleLike: takes a boolean, which stands for the truthiness of the argument that `if (isLiked)` tests. For example, `handleLike()` with no argument unlikes.
