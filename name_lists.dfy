/** The two pure list steps of the search pipeline: narrowing names to a typed
    prefix, and intersecting the member lists of the selected types. */
module NameLists {
  import opened Sequences

  function LowerChar(c: char): char {
    if 'A' <= c <= 'Z' then (c as int + 32) as char else c
  }

  predicate IsUpper(c: char) {
    'A' <= c <= 'Z'
  }

  /** `String.prototype.toLowerCase`, on the ASCII letters. */
  function ToLower(s: string): (r: string)
    ensures |r| == |s|
    ensures forall i :: 0 <= i < |r| ==> !IsUpper(r[i])
    ensures forall i :: 0 <= i < |s| ==>
              (IsUpper(s[i]) ==> r[i] as int == s[i] as int + 32) && (!IsUpper(s[i]) ==> r[i] == s[i])
  {
    if s == [] then [] else [LowerChar(s[0])] + ToLower(s[1..])
  }

  /** Lower-casing a string that is already lower case changes nothing. */
  lemma {:induction false} ToLowerIdempotent(s: string)
    ensures ToLower(ToLower(s)) == ToLower(s)
  {
    if s != [] {
      var l := ToLower(s);
      assert l == [LowerChar(s[0])] + ToLower(s[1..]);
      assert l[1..] == ToLower(s[1..]);
      ToLowerIdempotent(s[1..]);
    }
  }

  /** `String.prototype.startsWith`: `prefix` is a prefix of `name`. */
  predicate StartsWith(name: string, prefix: string): (b: bool)
    ensures b <==> |prefix| <= |name| && name[..|prefix|] == prefix
  {
    prefix <= name
  }

  /** The names that start with the lower-cased search term, in their order.
      Only the term is lower-cased; each name is compared as stored. */
  function FilterBySearchTerm(names: seq<string>, term: string): (r: seq<string>)
    ensures names == [] ==> r == []
    ensures IsSubsequence(r, names)
    ensures forall n :: n in r <==> n in names && StartsWith(n, ToLower(term))
    ensures forall n :: multiset(r)[n] ==
                        (if StartsWith(n, ToLower(term)) then multiset(names)[n] else 0)
  {
    if |names| == 0 then []
    else
      var lower := ToLower(term);
      Keep(names, name => StartsWith(name, lower))
  }

  /** An empty search term keeps every name. */
  lemma EmptyTermKeepsEverything(names: seq<string>)
    ensures FilterBySearchTerm(names, "") == names
  {
    if |names| != 0 {
      KeepAll(names, name => StartsWith(name, ToLower("")));
    }
  }

  /** Filtering a second time with the same term changes nothing. */
  lemma FilterIdempotent(names: seq<string>, term: string)
    ensures FilterBySearchTerm(FilterBySearchTerm(names, term), term) ==
            FilterBySearchTerm(names, term)
  {
    var once := FilterBySearchTerm(names, term);
    if |once| != 0 {
      KeepAll(once, name => StartsWith(name, ToLower(term)));
    }
  }

  /** The case of the term does not matter: it is lower-cased first. */
  lemma TermCaseIgnored(names: seq<string>, term: string)
    ensures FilterBySearchTerm(names, ToLower(term)) == FilterBySearchTerm(names, term)
  {
    if |names| != 0 {
      ToLowerIdempotent(term);
      KeepSamePredicate(names, name => StartsWith(name, ToLower(ToLower(term))),
                        name => StartsWith(name, ToLower(term)));
    }
  }

  /** The case of a name does matter: a name that begins with a capital letter
      never matches a non-empty term, whatever its case. */
  lemma CapitalisedNameNeverMatches(names: seq<string>, term: string, name: string)
    requires term != [] && name != [] && IsUpper(name[0])
    ensures name !in FilterBySearchTerm(names, term)
  {
    var lower := ToLower(term);
    assert !IsUpper(lower[0]);
    assert name[0] != lower[0];
  }

  /** `x` occurs in every one of `lists`. */
  predicate InEvery(x: string, lists: seq<seq<string>>) {
    forall i :: 0 <= i < |lists| ==> x in lists[i]
  }

  /** The names of the first list that occur in every list, in the order of the
      first list; no lists at all give no names. */
  function FindCommonNames(lists: seq<seq<string>>): (r: seq<string>)
    ensures lists == [] ==> r == []
    ensures lists != [] ==> IsSubsequence(r, lists[0])
    ensures forall x :: x in r <==> lists != [] && InEvery(x, lists)
    ensures lists != [] ==>
              forall x :: multiset(r)[x] == (if InEvery(x, lists) then multiset(lists[0])[x] else 0)
  {
    if |lists| == 0 then []
    else Keep(lists[0], x => InEvery(x, lists))
  }

  /** A selected type with no members empties the intersection. */
  lemma CommonNamesEmptyWhenAListIsEmpty(lists: seq<seq<string>>, k: nat)
    requires k < |lists| && lists[k] == []
    ensures FindCommonNames(lists) == []
  {
    var r := FindCommonNames(lists);
    assert forall x :: x !in r;
  }

  /** With a single selected type, its member list is kept as it is. */
  lemma CommonNamesOfOneList(names: seq<string>)
    ensures FindCommonNames([names]) == names
  {
    KeepAll(names, x => InEvery(x, [names]));
  }
}
