/** The market filter selection: a list of filter names in which "all" is
    exclusive with every other filter and the list is never left empty. */
module MarketFilters {
  import opened Seqs

  const All: string := "all"

  /** The set of filters a selection shows as active. */
  function Members(s: seq<string>): set<string> {
    set i | 0 <= i < |s| :: s[i]
  }

  /** A selection the updater can produce: non-empty, and "all" only alone. */
  predicate Reachable(s: seq<string>) {
    |s| > 0 && (All in s ==> s == [All])
  }

  /** The `toggleFilter(filter)` updater applied to the previous selection. */
  function ToggleFilter(prev: seq<string>, filter: string): (r: seq<string>)
    ensures Reachable(r)
    ensures filter == All ==> r == [All]
    ensures filter != All ==> (filter in r <==> filter !in prev)
  {
    if filter == All then [All]
    else
      var others := Without(prev, All);
      var updated := if filter in others then Without(others, filter) else others + [filter];
      if |updated| == 0 then [All] else updated
  }

  /** Toggling one named filter leaves the membership of every other named
      filter as it was. */
  lemma ToggleFilterKeepsOthers(prev: seq<string>, filter: string, g: string)
    requires filter != All && g != filter && g != All
    ensures g in ToggleFilter(prev, filter) <==> g in prev
  {
    if g in prev {
      var i :| 0 <= i < |prev| && prev[i] == g;
      var others := Without(prev, All);
      assert g in others;
      if filter in others {
        var updated := Without(others, filter);
        assert g in updated by {
          var k :| 0 <= k < |others| && others[k] == g;
        }
        assert ToggleFilter(prev, filter) == updated;
      } else {
        assert ToggleFilter(prev, filter) == others + [filter];
      }
    } else {
      var r := ToggleFilter(prev, filter);
      if g in r {
        var k :| 0 <= k < |r| && r[k] == g;
      }
    }
  }

  /** The other named filters keep their relative order, and a newly added
      filter goes at the end. */
  lemma ToggleFilterOrder(prev: seq<string>, filter: string)
    requires filter != All
    ensures Without(Without(ToggleFilter(prev, filter), All), filter)
         == Without(Without(prev, All), filter)
    ensures filter !in prev ==> ToggleFilter(prev, filter) == Without(prev, All) + [filter]
  {
    var others := Without(prev, All);
    var r := ToggleFilter(prev, filter);
    if filter in others {
      var updated := Without(others, filter);
      if |updated| == 0 {
        WithoutAbsent([All], filter);
        assert Without([All], All) == [];
        assert Without(r, All) == [];
      } else {
        assert All !in updated;
        WithoutAbsent(updated, All);
        assert filter !in updated;
        WithoutAbsent(updated, filter);
      }
    } else {
      assert r == others + [filter];
      assert All !in others + [filter];
      WithoutAbsent(others + [filter], All);
      WithoutAppend(others, [filter], filter);
      assert Without([filter], filter) == [] by {
        assert Without([filter], filter) == [] + Without([filter][1..], filter);
      }
      WithoutAbsent(others, filter);
      assert others + [] == others;
    }
  }

  /** A selection without duplicates stays without duplicates. */
  lemma ToggleFilterNoDuplicates(prev: seq<string>, filter: string)
    requires NoDuplicates(prev)
    ensures NoDuplicates(ToggleFilter(prev, filter))
  {
    if filter != All {
      var others := Without(prev, All);
      WithoutNoDuplicates(prev, All);
      if filter in others {
        WithoutNoDuplicates(others, filter);
      }
    }
  }

  /** From any reachable selection, toggling the same named filter twice
      shows the same set of filters again (the order may differ). */
  lemma ToggleFilterTwice(prev: seq<string>, filter: string)
    requires Reachable(prev) && filter != All
    ensures Members(ToggleFilter(ToggleFilter(prev, filter), filter)) == Members(prev)
  {
    var once := ToggleFilter(prev, filter);
    var twice := ToggleFilter(once, filter);
    if prev == [All] {
      assert Without(prev, All) == [] by {
        assert Without(prev, All) == [] + Without(prev[1..], All);
      }
      assert once == [filter];
      assert Without(once, All) == [filter] by {
        assert Without(once, All) == [filter] + Without(once[1..], All);
      }
      assert Without([filter], filter) == [] by {
        assert Without([filter], filter) == [] + Without([filter][1..], filter);
      }
      assert twice == [All];
    } else {
      forall g ensures g in Members(twice) <==> g in Members(prev) {
        if g != filter && g != All {
          ToggleFilterKeepsOthers(prev, filter, g);
          ToggleFilterKeepsOthers(once, filter, g);
          assert g in Members(twice) <==> g in twice;
          assert g in Members(prev) <==> g in prev;
        } else if g == filter {
          assert g in Members(twice) <==> g in twice;
          assert g in Members(prev) <==> g in prev;
        } else {
          assert All !in prev;
          assert filter in twice <==> filter in prev;
          assert g !in Members(twice);
        }
      }
    }
  }
}
