/** The search page's state and the handlers and effects that change it.
    The `ignore` flag of each effect run becomes an explicit epoch: every run
    of the fetch effect starts a new epoch (its cleanup sets `ignore` on the
    previous run), every request carries the epoch it was issued in, and a
    completion is accepted only while its epoch is still the current one. */
module SearchPage {
  import opened Records
  import opened Paging
  import opened Fetching
  import opened TypeSelection

  /** One run of the fetch effect: the epoch it was issued in, and the search
      term, selected types and offset its closure captured. */
  datatype Request = Request(epoch: nat, term: string, types: seq<string>, offset: nat)

  /** The displayed results once a page arrives: the page alone at offset 0;
      otherwise the earlier results, unchanged, followed by the page. */
  function Accumulate(shown: seq<Summary>, offset: nat, page: seq<Summary>): (r: seq<Summary>)
    ensures offset == 0 ==> r == page
    ensures offset != 0 ==> |r| == |shown| + |page| && r[..|shown|] == shown && r[|shown|..] == page
  {
    if offset == 0 then page else shown + page
  }

  /** The displayed results after the pages at offsets 0, 15, ..., 15 * (k - 1)
      of a fixed filtered list have each arrived fresh, in that order. Each
      page is the summaries of its window, which is what `FetchPokemons`
      yields once those names are found; only they need to be. */
  ghost function ShownAfter(names: seq<string>, k: nat, lookup: string -> Response<PokemonData>): seq<Summary>
    requires AllFoundIn(names[..Min(PageSize * k, |names|)], lookup)
  {
    if k == 0 then []
    else
      LoadedPrefixFound(names, k, lookup);
      Accumulate(ShownAfter(names, k - 1, lookup), PageSize * (k - 1),
                 SummariesOf(PageWindow(names, PageSize * (k - 1)), lookup))
  }

  /** Scrolling through a fixed filtered list shows the summaries of its pages,
      one after the other. */
  lemma {:induction false} ShownAfterIsPages(names: seq<string>, k: nat, lookup: string -> Response<PokemonData>)
    requires AllFoundIn(names[..Min(PageSize * k, |names|)], lookup)
    ensures AllFoundIn(Pages(names, k), lookup)
    ensures ShownAfter(names, k, lookup) == SummariesOf(Pages(names, k), lookup)
  {
    if k > 0 {
      LoadedPrefixFound(names, k, lookup);
      ShownAfterIsPages(names, k - 1, lookup);
      var before := Pages(names, k - 1);
      var w := PageWindow(names, PageSize * (k - 1));
      SummariesOfAppend(before, w, lookup);
      assert Pages(names, k) == before + w;
      var page := SummariesOf(w, lookup);
      if k == 1 {
        assert before + w == w;
        assert ShownAfter(names, k, lookup) == page;
      } else {
        assert ShownAfter(names, k, lookup) == SummariesOf(before, lookup) + page;
      }
    }
  }

  /** Scrolling shows, in order, the summaries of the first `15 * k` names of
      the filtered list (or of all of them): no name skipped, none twice. */
  lemma ScrollingShowsPrefix(names: seq<string>, k: nat, lookup: string -> Response<PokemonData>)
    requires AllFoundIn(names[..Min(PageSize * k, |names|)], lookup)
    ensures ShownAfter(names, k, lookup) == SummariesOf(names[..Min(PageSize * k, |names|)], lookup)
  {
    ShownAfterIsPages(names, k, lookup);
    PagesArePrefix(names, k);
  }

  /** Once `hasMore` is false for the last page received, the whole filtered
      list is shown. */
  lemma ScrollingEndsWithWholeList(names: seq<string>, k: nat, lookup: string -> Response<PokemonData>)
    requires AllFoundIn(names, lookup)
    requires k >= 1 && !HasMore(names, PageSize * (k - 1))
    ensures AllFoundIn(names[..Min(PageSize * k, |names|)], lookup)
    ensures ShownAfter(names, k, lookup) == SummariesOf(names, lookup)
  {
    assert names[..Min(PageSize * k, |names|)] == names;
    ShownAfterIsPages(names, k, lookup);
    PagesCoverListWhenNoMore(names, k);
  }

  /** The React state of the search page, plus the current epoch. */
  class Search {
    /** Every pokemon name, in catalog order; loaded once, never changed. */
    const catalog: seq<string>
    var searchTerm: string
    var debouncedTerm: string
    var types: seq<string>
    var pokemons: seq<Summary>
    var error: Option<FetchError>
    var isLoading: bool
    var offset: nat
    var hasMore: bool
    /** The epoch of the latest fetch-effect run; every earlier run has been
        cleaned up, i.e. has its `ignore` flag set. */
    var epoch: nat

    /** The offset only ever moves in whole pages. */
    ghost predicate Valid()
      reads this`offset
    {
      offset % PageSize == 0
    }

    /** A request is fresh while its effect run has not been cleaned up:
        the request carrying the current token is, and one issued before a
        later cleanup is not. */
    predicate IsFresh(req: Request): (b: bool)
      reads this`epoch
      ensures req.epoch == epoch ==> b
      ensures req.epoch < epoch ==> !b
    {
      req.epoch == epoch
    }

    /** The initial `useState` values. */
    constructor (catalog: seq<string>)
      ensures Valid()
      ensures this.catalog == catalog
      ensures searchTerm == "" && debouncedTerm == "" && types == []
      ensures pokemons == [] && error == None && isLoading && offset == 0 && hasMore
      ensures epoch == 0
    {
      this.catalog := catalog;
      searchTerm, debouncedTerm, types := "", "", [];
      pokemons, error, isLoading := [], None, true;
      offset, hasMore, epoch := 0, true, 0;
    }

    /** `handleSearchChange`: the raw term follows the input box. */
    method HandleSearchChange(term: string)
      modifies this`searchTerm
      ensures searchTerm == term
    {
      searchTerm := term;
    }

    /** The debounced term catches up with the raw term once typing pauses;
        the effects depending on it re-run only when its value changed. */
    method SettleDebounce() returns (changed: bool)
      modifies this`debouncedTerm
      ensures debouncedTerm == searchTerm
      ensures changed == (old(debouncedTerm) != searchTerm)
    {
      changed := debouncedTerm != searchTerm;
      debouncedTerm := searchTerm;
    }

    /** `handleTypeToggle`: removes a selected type, appends an unselected one. */
    method HandleTypeToggle(t: string)
      modifies this`types
      ensures types == Toggled(old(types), t)
    {
      types := Toggled(types, t);
    }

    /** `clearTypes`: empties the selection; an empty selection is left alone,
        so the effects depending on `types` do not re-run. */
    method ClearTypes() returns (changed: bool)
      modifies this`types
      ensures types == []
      ensures changed == (|old(types)| >= 1)
    {
      if |types| < 1 {
        return false;
      }
      types := [];
      changed := true;
    }

    /** The scroll handler: nothing while loading or when no names remain;
        otherwise one more page once the user is at the bottom. */
    method HandleScroll(scrolledToBottom: bool) returns (advanced: bool)
      requires Valid()
      modifies this`offset
      ensures Valid()
      ensures advanced == (hasMore && !isLoading && scrolledToBottom)
      ensures offset == if advanced then old(offset) + PageSize else old(offset)
    {
      if !hasMore || isLoading {
        return false;
      }
      advanced := scrolledToBottom;
      if scrolledToBottom {
        offset := offset + PageSize;
      }
    }

    /** The offset-reset effect, run when the debounced term or the types
        change; setting an offset of 0 again re-runs nothing. */
    method ResetOffset() returns (changed: bool)
      modifies this`offset
      ensures offset == 0 && Valid()
      ensures changed == (old(offset) != 0)
    {
      changed := offset != 0;
      offset := 0;
    }

    /** A run of the fetch effect: the cleanup of the previous run makes every
        earlier request stale, the error is cleared, loading starts, and the
        new request captures the current term, types and offset. */
    method Issue() returns (req: Request)
      modifies this`epoch, this`error, this`isLoading
      ensures epoch == old(epoch) + 1
      ensures req == Request(epoch, debouncedTerm, types, offset) && IsFresh(req)
      ensures error == None && isLoading
    {
      epoch := epoch + 1;
      error := None;
      isLoading := true;
      req := Request(epoch, debouncedTerm, types, offset);
    }

    /** The filtering step of a request. On success `hasMore` is set from the
        filtered list and the request's offset, whether or not the request is
        still fresh. A failed type lookup is recorded only if it is fresh. */
    method ResolveNames(req: Request, typeLookup: string -> Response<TypeData>) returns (names: Result<seq<string>>)
      modifies this`hasMore, this`error, this`isLoading
      ensures names == FilteredNames(catalog, req.types, req.term, typeLookup)
      ensures names.Ok? ==> hasMore == HasMore(names.value, req.offset)
      ensures names.Ok? ==> error == old(error) && isLoading == old(isLoading)
      ensures names.Err? ==> hasMore == old(hasMore)
      ensures names.Err? && IsFresh(req) ==> error == Some(names.error) && !isLoading
      ensures names.Err? && !IsFresh(req) ==> error == old(error) && isLoading == old(isLoading)
    {
      names := FilteredNames(catalog, req.types, req.term, typeLookup);
      match names
      case Ok(filtered) =>
        hasMore := |filtered| > req.offset + PageSize;
      case Err(e) =>
        if IsFresh(req) {
          error := Some(e);
          isLoading := false;
        }
    }

    /** The page step of a request: fetches the page window of its filtered
        list. A fresh success replaces the results at offset 0 and appends to
        them otherwise; a fresh failure records the error. Either way loading
        ends. A stale request changes nothing. */
    method ReceivePage(req: Request, names: seq<string>, lookup: string -> Response<PokemonData>)
      returns (page: Result<seq<Summary>>)
      modifies this`pokemons, this`error, this`isLoading
      ensures page == FetchPokemons(names, req.offset, lookup)
      ensures IsFresh(req) && page.Ok? ==>
                pokemons == Accumulate(old(pokemons), req.offset, page.value) &&
                error == old(error) && !isLoading
      ensures IsFresh(req) && page.Err? ==>
                pokemons == old(pokemons) && error == Some(page.error) && !isLoading
      ensures !IsFresh(req) ==>
                pokemons == old(pokemons) && error == old(error) && isLoading == old(isLoading)
    {
      page := FetchPokemons(names, req.offset, lookup);
      if IsFresh(req) {
        match page {
          case Ok(fetched) =>
            pokemons := Accumulate(pokemons, req.offset, fetched);
          case Err(e) =>
            error := Some(e);
        }
        isLoading := false;
      }
    }

    /** Unmounting runs the last cleanup: every outstanding request is stale. */
    method Unmount()
      modifies this`epoch
      ensures epoch == old(epoch) + 1
    {
      epoch := epoch + 1;
    }

    /** The commit after the debounced term or the types changed. The
        offset-reset effect runs first, but its `setOffset(0)` is seen only at
        the next render, so the fetch effect of this commit still captures the
        old offset. If that offset was not 0, the next render re-runs the fetch
        effect with offset 0, which supersedes the first request. */
    method CommitFilterChange() returns (live: Request, superseded: Option<Request>)
      requires Valid()
      modifies this`epoch, this`error, this`isLoading, this`offset
      ensures Valid() && offset == 0
      ensures live == Request(epoch, debouncedTerm, types, 0) && IsFresh(live)
      ensures error == None && isLoading
      ensures superseded.Some? <==> old(offset) != 0
      ensures superseded.Some? ==>
                superseded.value == Request(old(epoch) + 1, debouncedTerm, types, old(offset)) &&
                !IsFresh(superseded.value)
      ensures superseded.None? ==> epoch == old(epoch) + 1
    {
      var first := Issue();
      var moved := ResetOffset();
      if moved {
        live := Issue();
        superseded := Some(first);
      } else {
        live := first;
        superseded := None;
      }
    }
  }
}
