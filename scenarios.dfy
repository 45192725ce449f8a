/** Runs of the search page, driven through its handlers and effects in the
    order React would call them, with the remote service as parameters. */
module SearchScenarios {
  import opened Records
  import opened NameLists
  import opened Paging
  import opened Fetching
  import opened SearchPage

  /** With no type selected and an empty term, the filtered list is the
      catalog. */
  lemma CatalogUnfiltered(catalog: seq<string>, typeLookup: string -> Response<TypeData>)
    ensures FilteredNames(catalog, [], "", typeLookup) == Ok(catalog)
  {
    EmptyTermKeepsEverything(catalog);
  }

  /** A run of the fetch effect with no type selected and an empty term,
      up to its filtering step: `hasMore` is set from the catalog. */
  method StartUnfiltered(s: Search, typeLookup: string -> Response<TypeData>) returns (req: Request)
    requires s.types == [] && s.debouncedTerm == ""
    modifies s`epoch, s`error, s`isLoading, s`hasMore
    ensures s.IsFresh(req) && req.offset == s.offset
    ensures s.epoch == old(s.epoch) + 1 && s.error == None && s.isLoading
    ensures s.hasMore == HasMore(s.catalog, s.offset)
  {
    CatalogUnfiltered(s.catalog, typeLookup);
    req := s.Issue();
    var names := s.ResolveNames(req, typeLookup);
  }

  /** One run of the fetch effect with no type selected and an empty term,
      completed before anything supersedes it: `hasMore` is set from the
      catalog and the page at the current offset is shown. */
  method LoadUnfiltered(s: Search, lookup: string -> Response<PokemonData>,
                        typeLookup: string -> Response<TypeData>)
    requires s.types == [] && s.debouncedTerm == "" && AllFoundIn(s.catalog, lookup)
    modifies s`epoch, s`error, s`isLoading, s`hasMore, s`pokemons
    ensures s.epoch == old(s.epoch) + 1 && s.error == None && !s.isLoading
    ensures s.hasMore == HasMore(s.catalog, s.offset)
    ensures AllFoundIn(PageWindow(s.catalog, s.offset), lookup)
    ensures s.pokemons == Accumulate(old(s.pokemons), s.offset, FetchPokemons(s.catalog, s.offset, lookup).value)
  {
    var req := StartUnfiltered(s, typeLookup);
    WindowFound(s.catalog, s.offset, lookup);
    var page := s.ReceivePage(req, s.catalog, lookup);
  }

  /** Thirty matching names: the first page shows fifteen with more to come,
      one scroll shows all thirty with nothing more, and a further scroll
      does nothing. */
  method ScrollThroughTwoPages(catalog: seq<string>, lookup: string -> Response<PokemonData>,
                               typeLookup: string -> Response<TypeData>)
    returns (shown: seq<Summary>, moreAfterFirst: bool, moreAfterSecond: bool, thirdAdvanced: bool)
    requires |catalog| == 2 * PageSize && AllFoundIn(catalog, lookup)
    ensures moreAfterFirst && !moreAfterSecond && !thirdAdvanced
    ensures shown == SummariesOf(catalog, lookup)
  {
    var s := new Search(catalog);
    LoadUnfiltered(s, lookup, typeLookup);
    moreAfterFirst := s.hasMore;
    ghost var firstPage := s.pokemons;
    assert firstPage == ShownAfter(catalog, 1, lookup);

    var advanced := s.HandleScroll(true);
    assert advanced && s.offset == PageSize;
    LoadUnfiltered(s, lookup, typeLookup);
    moreAfterSecond := s.hasMore;
    assert s.pokemons == ShownAfter(catalog, 2, lookup);

    thirdAdvanced := s.HandleScroll(true);
    shown := s.pokemons;
    ScrollingEndsWithWholeList(catalog, 2, lookup);
  }

  /** The user selects `fire` while nothing is selected and the offset is on
      the second page: the commit issues a request with the old offset, which
      the re-render at offset 0 supersedes. */
  method SelectTypeOnSecondPage(s: Search, fire: string) returns (live: Request, stale: Request)
    requires s.Valid() && s.types == [] && s.debouncedTerm == "" && s.offset == PageSize
    modifies s`types, s`epoch, s`error, s`isLoading, s`offset
    ensures s.Valid() && s.offset == 0 && s.types == [fire]
    ensures s.error == None && s.isLoading
    ensures live == Request(s.epoch, "", [fire], 0) && s.IsFresh(live)
    ensures stale.term == "" && stale.types == [fire] && stale.offset == PageSize && !s.IsFresh(stale)
  {
    s.HandleTypeToggle(fire);
    assert s.types == [fire];
    var superseded;
    live, superseded := s.CommitFilterChange();
    stale := superseded.value;
  }

  /** The live request's name list arrives first, the superseded one's
      second; the second still sets `hasMore`, from its own offset. */
  method NamesArriveOutOfOrder(s: Search, live: Request, stale: Request,
                               typeLookup: string -> Response<TypeData>)
    returns (names: seq<string>)
    requires FilteredNames(s.catalog, live.types, live.term, typeLookup) == Ok(s.catalog)
    requires FilteredNames(s.catalog, stale.types, stale.term, typeLookup) == Ok(s.catalog)
    requires live.offset == 0 && stale.offset == PageSize && |s.catalog| <= 2 * PageSize
    modifies s`hasMore, s`error, s`isLoading
    ensures names == s.catalog && !s.hasMore
    ensures s.error == old(s.error) && s.isLoading == old(s.isLoading)
  {
    var liveNames := s.ResolveNames(live, typeLookup);
    var staleNames := s.ResolveNames(stale, typeLookup);
    names := liveNames.value;
  }

  /** The live page arrives after `hasMore` was cleared: it is shown, and
      scrolling to the bottom then does nothing. */
  method ShowLivePageThenScroll(s: Search, live: Request, lookup: string -> Response<PokemonData>)
    returns (shown: seq<Summary>, advanced: bool)
    requires s.Valid() && s.IsFresh(live) && live.offset == 0 && !s.hasMore
    requires PageSize < |s.catalog| && AllFoundIn(s.catalog, lookup)
    modifies s`pokemons, s`error, s`isLoading, s`offset
    ensures AllFoundIn(s.catalog[..PageSize], lookup)
    ensures shown == SummariesOf(s.catalog[..PageSize], lookup) && !advanced
  {
    WindowFound(s.catalog, 0, lookup);
    var page := s.ReceivePage(live, s.catalog, lookup);
    assert PageWindow(s.catalog, 0) == s.catalog[..PageSize];
    shown := s.pokemons;
    advanced := s.HandleScroll(true);
  }

  /** A type is selected while the user is on the second page. The request
      issued with the stale offset 15 is superseded, but when its name list
      arrives after the live request's it still overwrites `hasMore`; once the
      live page is shown, the scroll trigger no longer advances although only
      the first fifteen of more than fifteen names are shown. */
  method StaleRequestStopsScrolling(catalog: seq<string>, lookup: string -> Response<PokemonData>,
                                    typeLookup: string -> Response<TypeData>,
                                    fire: string, fireData: TypeData)
    returns (shown: seq<Summary>, advanced: bool)
    requires PageSize < |catalog| <= 2 * PageSize && AllFoundIn(catalog, lookup)
    requires typeLookup(fire) == Found(fireData) && MemberNames(fireData) == catalog
    ensures AllFoundIn(catalog[..PageSize], lookup)
    ensures shown == SummariesOf(catalog[..PageSize], lookup) && !advanced
  {
    var s := new Search(catalog);
    // Mount: the first page of the whole catalog.
    LoadUnfiltered(s, lookup, typeLookup);
    // Scroll to the second page. With no type selected the run sets
    // `hasMore` at once (the catalog has no third page); its page is still
    // in flight when ...
    advanced := s.HandleScroll(true);
    var second := StartUnfiltered(s, typeLookup);
    // ... the user selects a type.
    var live, stale := SelectTypeOnSecondPage(s, fire);
    FireOnly(catalog, typeLookup, fire, fireData);
    var names := NamesArriveOutOfOrder(s, live, stale, typeLookup);
    shown, advanced := ShowLivePageThenScroll(s, live, lookup);
  }

  /** With one type selected whose members are the catalog, and an empty
      term, the filtered list is the catalog. */
  lemma FireOnly(catalog: seq<string>, typeLookup: string -> Response<TypeData>,
                 fire: string, fireData: TypeData)
    requires typeLookup(fire) == Found(fireData) && MemberNames(fireData) == catalog
    ensures FilteredNames(catalog, [fire], "", typeLookup) == Ok(catalog)
  {
    assert [fire][0] == fire;
    var lists := FetchNamesByType([fire], typeLookup);
    assert lists.Ok? && |lists.value| == 1 && lists.value[0] == catalog;
    assert lists.value == [catalog];
    CommonNamesOfOneList(catalog);
    EmptyTermKeepsEverything(catalog);
  }
}
