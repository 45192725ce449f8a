# PokeSearch search page, modelled in Dafny

This project models the search pipeline of PokeSearch's search page
(`src/routes/Search.jsx`). The page shows pokemon whose names start with a
typed term and that belong to every selected type. The list is loaded 15 at a
time as the user scrolls. Its state lives in React state: `pokemons`,
`types`, `offset`, `hasMore`, `isLoading`, `error`, and the raw and debounced
search terms.

The model has two halves, as the page does.

- **Pure list logic** (functions and lemmas):
  - `NameLists.FilterBySearchTerm`: keeps the names that start with the lower-cased term.
  - `NameLists.FindCommonNames`: intersects the member lists of the selected types, in the order of the first list.
  - `Paging.PageWindow`: the 15-name page window.
  - `Paging.HasMore`: the `hasMore` rule.
  - `Fetching.FetchPokemons` and `Fetching.FetchNamesByType`: the all-or-nothing lookups and the shaping of their results.
  - `TypeSelection.Toggled`: the type toggle.
- **The state machine** (class `SearchPage.Search`): one method per handler or
  effect step. Each React `ignore` flag becomes an explicit epoch token.
  - Every run of the fetch effect (`Issue`) starts a new epoch. This is the cleanup of the previous run.
  - Every request carries the epoch it was issued in.
  - `ResolveNames` and `ReceivePage` accept a completion only while its epoch is current.
  - Faithful to line 160, `ResolveNames` sets `hasMore` before that check, so a stale request still writes it.

The remote service is a parameter: a function from a key to a `Response`,
either `Found(data)` or `Failed(reason)`. Each call site gets its own oracle.
The order in which React runs handlers, effects and completions is the order
in which a caller invokes the methods. `SearchScenarios` drives the class
through two runs:

- `ScrollThroughTwoPages`: 30 names load as 15, then 30, and then the scroll trigger stops.
- `StaleRequestStopsScrolling`: the user selects a type on the second page. In that commit the offset-reset effect's `setOffset(0)` is not yet visible, so the fetch effect issues a request with the old offset 15. The re-render at offset 0 supersedes it. The earlier unfiltered run at offset 15 has already set `hasMore` synchronously. If the superseded request's name list arrives last, it still sets `hasMore` from offset 15. After the live first page arrives, scrolling no longer loads anything, although more than 15 names match.

Points where the page behaves differently from what one might expect:

- Only the search term is lower-cased. Names are compared as stored, so matching is not case-insensitive on names (`CapitalisedNameNeverMatches`).
- The page size is 15.
- A filter change does not clear `pokemons`. The old results stay until the offset-0 page of the new filter replaces them.
- The selected types are an ordered list. A toggle appends at the end, and the first selected type decides the order of the results.

## Model

| member | source | states |
|---|---|---|
| `Sequences.Keep` | src/routes/Search.jsx:108-110 | `Array.filter`: the result is an order-preserving subsequence of the input; it holds exactly the elements satisfying the predicate, each as often as in the input |
| `NameLists.ToLower` | src/routes/Search.jsx:140 | `toLowerCase` keeps the length, maps each upper-case ASCII letter to its lower-case letter and keeps every other character; no upper-case letter remains |
| `NameLists.StartsWith` | src/routes/Search.jsx:140 | `startsWith`: holds iff the prefix is no longer than the name and equals the name's first characters |
| `NameLists.FilterBySearchTerm` | src/routes/Search.jsx:137-142 | no names give no names; otherwise an order-preserving subsequence holding exactly the names that start with the lower-cased term, each as often as in the input |
| `NameLists.EmptyTermKeepsEverything` | src/routes/Search.jsx:137-142 | an empty term keeps every name, in order |
| `NameLists.FilterIdempotent` | src/routes/Search.jsx:137-142 | filtering again with the same term changes nothing |
| `NameLists.TermCaseIgnored` | src/routes/Search.jsx:140 | the term's case does not change the result |
| `NameLists.CapitalisedNameNeverMatches` | src/routes/Search.jsx:140 | names are not lower-cased: a name starting with a capital letter never matches a non-empty term |
| `NameLists.FindCommonNames` | src/routes/Search.jsx:106-111 | no lists give `[]`; otherwise an order-preserving subsequence of the first list holding exactly the names that occur in every list, with the first list's multiplicities |
| `NameLists.CommonNamesEmptyWhenAListIsEmpty` | src/routes/Search.jsx:106-111 | a type with no members empties the intersection |
| `NameLists.CommonNamesOfOneList` | src/routes/Search.jsx:106-111 | with one selected type, its member list is kept as is |
| `Paging.PageWindow` | src/routes/Search.jsx:15 | `slice(offset, offset + 15)`: at most 15 names; empty once `offset` is past the end; exactly `min(15, len - offset)` names otherwise, the i-th being `names[offset + i]` |
| `Paging.HasMore` | src/routes/Search.jsx:160 | `hasMore` holds iff names remain after the page at `offset` |
| `Paging.HasMoreIffNextPageNonEmpty` | src/routes/Search.jsx:160 | `hasMore` holds iff the next page is non-empty; then the current page is full |
| `Paging.PagesArePrefix` | src/routes/Search.jsx:15 | the pages at offsets 0, 15, ..., 15(k-1) concatenate to the first `min(15k, len)` names: no gap, no repeat, in order |
| `Paging.PagesCoverListWhenNoMore` | src/routes/Search.jsx:160 | once `hasMore` is false for the last page, the pages so far are the whole list |
| `Paging.PagesLeaveNamesWhileMore` | src/routes/Search.jsx:160 | while `hasMore` is true, the pages so far are full and names remain unseen |
| `Paging.PagesNoDuplicates` | src/routes/Search.jsx:15 | pages of a duplicate-free list repeat no name |
| `Fetching.Gather` | src/routes/Search.jsx:26 | `Promise.all` over one lookup per key: succeeds iff every lookup does, with the answers in key order; otherwise reports a key whose lookup failed, with its reason, every earlier key having been found |
| `Fetching.Summarize` | src/routes/Search.jsx:27-33 | a grid entry carries the record's name, id and official artwork, unchanged |
| `Fetching.FetchPokemons` | src/routes/Search.jsx:14-34 | succeeds iff every name of the page window is found, and then yields one summary per window name in window order; otherwise fails with `PokemonFetchFailed` naming a window name whose lookup failed |
| `Fetching.FetchedPageBounds` | src/routes/Search.jsx:15 | a fetched page has at most 15 summaries, and an offset past the end yields an empty page |
| `Fetching.FetchNamesByType` | src/routes/Search.jsx:37-55 | succeeds iff every type is found, and then yields each type's member names in the order of the types; otherwise fails with `TypeFetchFailed` naming a selected type whose lookup failed |
| `Fetching.FilteredNames` | src/routes/Search.jsx:149-157 | fails iff a type is selected and some type lookup fails; every name of a success starts with the lower-cased term |
| `Fetching.FilteredNamesWithoutTypes` | src/routes/Search.jsx:155-157 | with no type selected, the catalog's subsequence of exactly the names starting with the lower-cased term |
| `Fetching.FilteredNamesWithTypes` | src/routes/Search.jsx:151-154 | with types selected and found, the first type's subsequence of exactly the names in every selected type that start with the lower-cased term |
| `TypeSelection.Toggled` | src/routes/Search.jsx:87-96 | a selected type is removed (every occurrence) and the rest keep their order and multiplicities; an unselected one is appended at the end; no other type changes membership |
| `TypeSelection.ToggleTwiceRestoresMembership` | src/routes/Search.jsx:87-96 | toggling twice restores which types are selected |
| `TypeSelection.ToggleTwice` | src/routes/Search.jsx:87-96 | toggling an unselected type twice restores the list exactly; toggling a selected one twice moves it to the end |
| `TypeSelection.ToggledNoDuplicates` | src/routes/Search.jsx:87-96 | a toggle never makes a type appear twice |
| `SearchPage.Accumulate` | src/routes/Search.jsx:164 | at offset 0 the page replaces the results; otherwise the earlier results stay unchanged and the page follows them |
| `SearchPage.ShownAfterIsPages` | src/routes/Search.jsx:164 | when the names of the first k pages are found, the displayed results after k fresh pages (replace at 0, append after) are the summaries of the k pages, concatenated |
| `SearchPage.ScrollingShowsPrefix` | src/routes/Search.jsx:160-164 | when those names are found, after k fresh pages the results are the summaries of the first `min(15k, len)` filtered names, in order |
| `SearchPage.ScrollingEndsWithWholeList` | src/routes/Search.jsx:160-164 | once `hasMore` is false, the results are the summaries of the whole filtered list |
| `SearchPage.Search.constructor` | src/routes/Search.jsx:58-65 | the initial state: no results, empty term and types, no error, loading, offset 0, `hasMore` true |
| `SearchPage.Search.HandleSearchChange` | src/routes/Search.jsx:80-84 | the raw term becomes the input's value |
| `SearchPage.Search.SettleDebounce` | src/routes/Search.jsx:60 | the debounced term catches up with the raw term; reports whether it changed |
| `SearchPage.Search.HandleTypeToggle` | src/routes/Search.jsx:87-96 | the selection becomes `Toggled(old selection, type)`; nothing else changes |
| `SearchPage.Search.ClearTypes` | src/routes/Search.jsx:99-103 | the selection becomes empty; it reports a change iff it was non-empty |
| `SearchPage.Search.HandleScroll` | src/routes/Search.jsx:115-124 | the offset grows by exactly 15 iff `hasMore`, not loading and at the bottom, else is unchanged; the offset stays a multiple of 15 |
| `SearchPage.Search.ResetOffset` | src/routes/Search.jsx:130-133 | the offset becomes 0; reports a change iff it was not 0 |
| `SearchPage.Search.IsFresh` | src/routes/Search.jsx:162-171 | the `!ignore` test: the request of the current effect run is fresh; one issued before a later cleanup is not |
| `SearchPage.Search.Issue` | src/routes/Search.jsx:144-148 | a new epoch makes every earlier request stale; error cleared, loading; the request captures term, types and offset |
| `SearchPage.Search.ResolveNames` | src/routes/Search.jsx:149-160 | on success `hasMore` becomes `len > offset + 15`, fresh or stale; a fresh failure sets the error and ends loading; a stale failure changes nothing |
| `SearchPage.Search.ReceivePage` | src/routes/Search.jsx:162-171 | a fresh page replaces the results at offset 0 and is appended otherwise; a fresh failure sets the error and keeps the results; either way loading ends; a stale completion changes nothing |
| `SearchPage.Search.Unmount` | src/routes/Search.jsx:177-179 | the last cleanup makes every outstanding request stale |
| `SearchPage.Search.CommitFilterChange` | src/routes/Search.jsx:130-180 | after a filter change the offset is 0 and the live request has offset 0; if the offset was not 0, a request with the old offset was issued first and is stale |
| `SearchScenarios.StartUnfiltered` | src/routes/Search.jsx:144-160 | an unfiltered run sets `hasMore` from the catalog and the current offset |
| `SearchScenarios.LoadUnfiltered` | src/routes/Search.jsx:144-171 | an unfiltered run that completes fresh shows the page at the current offset |
| `SearchScenarios.ScrollThroughTwoPages` | src/routes/Search.jsx:114-164 | 30 names: `hasMore` after the first page, not after the second; the results are all 30 summaries and a third scroll does nothing |
| `SearchScenarios.SelectTypeOnSecondPage` | src/routes/Search.jsx:87-96 | selecting a type on the second page leaves a stale request at offset 15 and a live one at offset 0 |
| `SearchScenarios.NamesArriveOutOfOrder` | src/routes/Search.jsx:160 | the stale request's late name list clears `hasMore` after the live one set it |
| `SearchScenarios.ShowLivePageThenScroll` | src/routes/Search.jsx:162-166 | the live first page is shown and a scroll then does nothing |
| `SearchScenarios.StaleRequestStopsScrolling` | src/routes/Search.jsx:130-180 | with 16 to 30 matching names, a superseded request can leave only the first 15 shown with the scroll trigger dead |

## Left out

- Network access (`fetch`, `response.ok`, `response.json`) is not modelled. Each lookup is an oracle parameter returning `Found(data)` or `Failed(reason)`. The error message text is reduced to the failing key and the reason.
- JSON shape navigation (`sprites.other["official-artwork"].front_default`, `type.pokemon[].pokemon.name`) is not modelled. The records hold those fields directly. Missing fields would throw in the source; the model has no such error.
- `Promise.all` concurrency is reduced to all-or-nothing. `Fetching.Gather` reports the first failing key in list order, whereas `Promise.all` rejects with whichever failure settles first.
- `useDebounce` and its 250 ms timer are not modelled. Only "the debounced term caught up" is modelled (`SettleDebounce`).
- `localStorage` restore and writes (lines 68-77, 83, 91, 94, 102) are an external store and are not modelled.
- Scroll geometry (lines 118-119) is the boolean `scrolledToBottom`. Listener registration is not modelled.
- SearchPage.Search.HandleScroll: reads the current `hasMore` and `isLoading`, whereas the listener (lines 114-128) keeps the values captured at its render. Until the fetch effect's `setIsLoading(true)` commits and the scroll effect re-registers, the listener still sees `isLoading == false`. A second scroll event in that window adds 15 again, moving the offset from 0 to 30. The run for offset 15 is then cleaned up before its page lands, so names 15 to 29 are never shown. The model does not capture this skipped page.
- Which completion arrives when, and when React re-renders, is not modelled. Each interleaving is a sequence of method calls. Not every sequence is one the page can produce. With no type selected, the name list is computed before the run's first `await` (lines 151-160), so `ResolveNames` follows that run's `Issue` at once. Only a run with selected types can have its name list arrive late. The class does not enforce this; callers, including `SearchScenarios`, respect it.
- `NameLists.ToLower`: lower-cases the ASCII letters only; JavaScript's `toLowerCase` also maps other Unicode letters.
- The bundled catalog JSON (line 11) is the constructor parameter `catalog`.
- Effect dependencies compare arrays by reference, so a toggle always re-runs the effects. Clearing an empty selection does not. This is stated through the returned `changed` flags, not through a model of React's comparison.
- JSX rendering, the error view, the loading grid, `src/routes/Random.jsx` (random ids and fetches) and `src/components/PokemonGrid.jsx` (presentation) are not part of this model.
