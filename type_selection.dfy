/** The selected-types list and how one toggle changes it. */
module TypeSelection {
  import opened Sequences

  /** `handleTypeToggle`'s new list: a selected type is removed (every
      occurrence of it), an unselected one is appended at the end. */
  function Toggled(types: seq<string>, t: string): (r: seq<string>)
    ensures t in r <==> t !in types
    ensures forall u :: u != t ==> (u in r <==> u in types)
    ensures t in types ==> IsSubsequence(r, types)
    ensures t in types ==> forall u :: multiset(r)[u] == if u == t then 0 else multiset(types)[u]
    ensures t !in types ==> |r| == |types| + 1 && r[..|types|] == types && r[|types|] == t
  {
    if t in types then Keep(types, u => u != t) else types + [t]
  }

  /** Toggling a type twice restores whether it is selected. */
  lemma ToggleTwiceRestoresMembership(types: seq<string>, t: string)
    ensures forall u :: u in Toggled(Toggled(types, t), t) <==> u in types
  {
  }

  /** Toggling an unselected type twice gives back the same list; toggling a
      selected one twice moves it to the end. */
  lemma {:induction false} ToggleTwice(types: seq<string>, t: string)
    ensures t !in types ==> Toggled(Toggled(types, t), t) == types
    ensures t in types ==> Toggled(Toggled(types, t), t) == Keep(types, u => u != t) + [t]
  {
    if t !in types {
      KeepAppend(types, [t], u => u != t);
      KeepAll(types, u => u != t);
      assert Keep([t], u => u != t) == [];
    }
  }

  /** A toggle never makes a selected type appear twice. */
  lemma ToggledNoDuplicates(types: seq<string>, t: string)
    requires NoDuplicates(types)
    ensures NoDuplicates(Toggled(types, t))
  {
    if t in types {
      KeepNoDuplicates(types, u => u != t);
    } else {
      var r := types + [t];
      forall i, j | 0 <= i < j < |r| ensures r[i] != r[j] {
        if j == |types| {
          assert r[i] == types[i];
        } else {
          assert r[i] == types[i] && r[j] == types[j];
        }
      }
    }
  }
}
