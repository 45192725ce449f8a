/** The all-or-nothing lookups of the search page and the shaping of their
    results. The remote service is an oracle: a function from a key (a pokemon
    name or a type name) to a `Response`. */
module Fetching {
  import opened Records
  import opened Sequences
  import opened NameLists
  import opened Paging

  /** The outcome of looking up every key: all the answers in key order, or
      the first key (in key order) whose lookup failed. */
  datatype Gathered<D> = AllFound(values: seq<D>) | FirstFailure(key: string, reason: string)

  /** Every key in `keys` is found. */
  ghost predicate AllFoundIn<D>(keys: seq<string>, lookup: string -> Response<D>) {
    forall i :: 0 <= i < |keys| ==> lookup(keys[i]).Found?
  }

  /** `Promise.all` over one lookup per key: it succeeds only when every lookup
      does, and then keeps the key order. */
  function Gather<D>(keys: seq<string>, lookup: string -> Response<D>): (g: Gathered<D>)
    ensures g.AllFound? <==> AllFoundIn(keys, lookup)
    ensures g.AllFound? ==>
              |g.values| == |keys| &&
              forall i :: 0 <= i < |keys| ==> g.values[i] == lookup(keys[i]).data
    ensures g.FirstFailure? ==>
              exists i :: 0 <= i < |keys| && keys[i] == g.key &&
                          lookup(keys[i]) == Failed(g.reason) &&
                          AllFoundIn(keys[..i], lookup)
  {
    if keys == [] then AllFound([])
    else
      match lookup(keys[0])
      case Failed(why) =>
        assert keys[..0] == [];
        FirstFailure(keys[0], why)
      case Found(d) =>
        match Gather(keys[1..], lookup)
        case FirstFailure(k, why) =>
          FirstFailureShifts(keys, lookup, k, why);
          FirstFailure(k, why)
        case AllFound(ds) =>
          assert forall i :: 0 <= i < |keys[1..]| ==> keys[1..][i] == keys[i + 1];
          AllFound([d] + ds)
  }

  /** A first failure in the tail is a first failure of the whole list when
      the head is found. */
  lemma FirstFailureShifts<D>(keys: seq<string>, lookup: string -> Response<D>, k: string, why: string)
    requires keys != [] && lookup(keys[0]).Found?
    requires exists i :: 0 <= i < |keys[1..]| && keys[1..][i] == k &&
                         lookup(keys[1..][i]) == Failed(why) && AllFoundIn(keys[1..][..i], lookup)
    ensures exists i :: 0 <= i < |keys| && keys[i] == k &&
                        lookup(keys[i]) == Failed(why) && AllFoundIn(keys[..i], lookup)
  {
    var i :| 0 <= i < |keys[1..]| && keys[1..][i] == k &&
             lookup(keys[1..][i]) == Failed(why) && AllFoundIn(keys[1..][..i], lookup);
    assert keys[..i + 1] == [keys[0]] + keys[1..][..i];
    assert keys[i + 1] == k;
  }

  /** The grid entry of a fetched record: its name, its id and its artwork. */
  function Summarize(p: PokemonData): (s: Summary)
    ensures s.name == p.name && s.id == p.id && s.img == p.artwork
  {
    Summary(p.name, p.id, p.artwork)
  }

  /** The grid entries of a list of names every one of which is found. */
  ghost function SummariesOf(names: seq<string>, lookup: string -> Response<PokemonData>): seq<Summary>
    requires AllFoundIn(names, lookup)
  {
    seq(|names|, i requires 0 <= i < |names| => Summarize(lookup(names[i]).data))
  }

  /** `fetchPokemons(names, offset)`: looks up every name of the page window
      and maps each record, in order, to its summary; fails as a whole,
      naming a pokemon, when one lookup fails. */
  function FetchPokemons(names: seq<string>, offset: nat,
                         lookup: string -> Response<PokemonData>): (r: Result<seq<Summary>>)
    ensures r.Ok? <==> AllFoundIn(PageWindow(names, offset), lookup)
    ensures r.Ok? ==> r.value == SummariesOf(PageWindow(names, offset), lookup)
    ensures r.Err? ==>
              r.error.PokemonFetchFailed? && r.error.name in PageWindow(names, offset) &&
              lookup(r.error.name) == Failed(r.error.reason)
  {
    match Gather(PageWindow(names, offset), lookup)
    case FirstFailure(name, why) => Err(PokemonFetchFailed(name, why))
    case AllFound(ds) => Ok(seq(|ds|, i requires 0 <= i < |ds| => Summarize(ds[i])))
  }

  /** Every name of a page window comes from the list, so the window is
      found whenever the whole list is. */
  lemma WindowFound(names: seq<string>, offset: nat, lookup: string -> Response<PokemonData>)
    requires AllFoundIn(names, lookup)
    ensures AllFoundIn(PageWindow(names, offset), lookup)
  {
    var w := PageWindow(names, offset);
    forall i | 0 <= i < |w| ensures lookup(w[i]).Found? {
      assert w[i] == names[offset + i];
    }
  }

  /** When the first `k` pages' names are all found, so are the first
      `k - 1` pages' names and the names of page `k`. */
  lemma LoadedPrefixFound(names: seq<string>, k: nat, lookup: string -> Response<PokemonData>)
    requires k >= 1 && AllFoundIn(names[..Min(PageSize * k, |names|)], lookup)
    ensures AllFoundIn(names[..Min(PageSize * (k - 1), |names|)], lookup)
    ensures AllFoundIn(PageWindow(names, PageSize * (k - 1)), lookup)
  {
    var loaded := names[..Min(PageSize * k, |names|)];
    var before := names[..Min(PageSize * (k - 1), |names|)];
    forall i | 0 <= i < |before| ensures lookup(before[i]).Found? {
      assert before[i] == loaded[i];
    }
    var w := PageWindow(names, PageSize * (k - 1));
    forall i | 0 <= i < |w| ensures lookup(w[i]).Found? {
      assert w[i] == loaded[PageSize * (k - 1) + i];
    }
  }

  /** Summaries of two lists, one after the other, are the summaries of the
      concatenated list. */
  lemma SummariesOfAppend(a: seq<string>, b: seq<string>, lookup: string -> Response<PokemonData>)
    requires AllFoundIn(a, lookup) && AllFoundIn(b, lookup)
    ensures AllFoundIn(a + b, lookup)
    ensures SummariesOf(a + b, lookup) == SummariesOf(a, lookup) + SummariesOf(b, lookup)
  {
    var ab := a + b;
    forall i | 0 <= i < |ab| ensures lookup(ab[i]).Found? {
      if i < |a| { assert ab[i] == a[i]; } else { assert ab[i] == b[i - |a|]; }
    }
  }

  /** A page is never longer than `PageSize`, and is empty past the end. */
  lemma FetchedPageBounds(names: seq<string>, offset: nat, lookup: string -> Response<PokemonData>)
    ensures FetchPokemons(names, offset, lookup).Ok? ==>
              |FetchPokemons(names, offset, lookup).value| <= PageSize
    ensures offset >= |names| ==> FetchPokemons(names, offset, lookup) == Ok([])
  {
  }

  /** The member names of a type record, in slot order. */
  function MemberNames(t: TypeData): seq<string> {
    seq(|t.pokemon|, i requires 0 <= i < |t.pokemon| => t.pokemon[i].pokemonName)
  }

  /** `fetchNamesByType(types)`: the member-name list of each selected type,
      in the order of `types`; fails as a whole, naming a type, when one
      lookup fails. */
  function FetchNamesByType(types: seq<string>, lookup: string -> Response<TypeData>): (r: Result<seq<seq<string>>>)
    ensures r.Ok? <==> AllFoundIn(types, lookup)
    ensures r.Ok? ==>
              |r.value| == |types| &&
              forall i :: 0 <= i < |types| ==> r.value[i] == MemberNames(lookup(types[i]).data)
    ensures r.Err? ==>
              r.error.TypeFetchFailed? && r.error.typeName in types &&
              lookup(r.error.typeName) == Failed(r.error.reason)
  {
    match Gather(types, lookup)
    case FirstFailure(t, why) => Err(TypeFetchFailed(t, why))
    case AllFound(ds) => Ok(seq(|ds|, i requires 0 <= i < |ds| => MemberNames(ds[i])))
  }

  /** The filtered name list of one request: with no type selected, the
      catalog narrowed by the term; otherwise the names common to all selected
      types, narrowed by the term. Fails only when a type lookup fails. */
  function FilteredNames(catalog: seq<string>, types: seq<string>, term: string,
                         lookup: string -> Response<TypeData>): (r: Result<seq<string>>)
    ensures r.Err? <==> |types| > 0 && !AllFoundIn(types, lookup)
    ensures r.Ok? ==> forall n :: n in r.value ==> StartsWith(n, ToLower(term))
  {
    if |types| > 0 then
      match FetchNamesByType(types, lookup)
      case Err(e) => Err(e)
      case Ok(lists) => Ok(FilterBySearchTerm(FindCommonNames(lists), term))
    else
      Ok(FilterBySearchTerm(catalog, term))
  }

  /** With no type selected, the filtered list is the catalog's subsequence of
      exactly the names that start with the lower-cased term. */
  lemma FilteredNamesWithoutTypes(catalog: seq<string>, term: string, lookup: string -> Response<TypeData>)
    ensures FilteredNames(catalog, [], term, lookup).Ok?
    ensures IsSubsequence(FilteredNames(catalog, [], term, lookup).value, catalog)
    ensures forall n :: n in FilteredNames(catalog, [], term, lookup).value <==>
                        n in catalog && StartsWith(n, ToLower(term))
  {
    assert FilteredNames(catalog, [], term, lookup) == Ok(FilterBySearchTerm(catalog, term));
  }

  /** With types selected and all of them found, the filtered list is the
      subsequence of the first type's members of exactly the names that are
      members of every selected type and start with the lower-cased term. */
  lemma FilteredNamesWithTypes(catalog: seq<string>, types: seq<string>, term: string,
                               lookup: string -> Response<TypeData>)
    requires |types| > 0 && AllFoundIn(types, lookup)
    ensures FilteredNames(catalog, types, term, lookup).Ok?
    ensures IsSubsequence(FilteredNames(catalog, types, term, lookup).value,
                          MemberNames(lookup(types[0]).data))
    ensures forall n :: n in FilteredNames(catalog, types, term, lookup).value <==>
                        StartsWith(n, ToLower(term)) &&
                        forall i :: 0 <= i < |types| ==> n in MemberNames(lookup(types[i]).data)
  {
    var lists := FetchNamesByType(types, lookup).value;
    var common := FindCommonNames(lists);
    var r := FilterBySearchTerm(common, term);
    assert FilteredNames(catalog, types, term, lookup) == Ok(r);
    assert lists[0] == MemberNames(lookup(types[0]).data);
    SubsequenceTransitive(r, common, lists[0]);
    forall n ensures n in r <==> StartsWith(n, ToLower(term)) &&
                                 forall i :: 0 <= i < |types| ==> n in MemberNames(lookup(types[i]).data)
    {
      assert n in r <==> n in common && StartsWith(n, ToLower(term));
      assert n in common <==> InEvery(n, lists);
      assert forall i :: 0 <= i < |types| ==> lists[i] == MemberNames(lookup(types[i]).data);
    }
  }
}
