/**
 * The favourites list ("My List") that five pages keep in local storage:
 * a sequence of anime ids toggled in and out by one shared rule
 * (src/pages/Home.jsx, src/pages/Schedules.jsx, src/pages/SeasonArchive.jsx,
 * src/pages/Seasonal.jsx, src/pages/Upcoming.jsx).
 */
module Favorites {
  import opened Seqs

  /** `prev.filter(i => i !== id)`: every occurrence of `id` dropped, the rest in order. */
  function Remove(list: seq<int>, id: int): (r: seq<int>)
    ensures id !in r
    ensures forall x :: x != id ==> (x in r <==> x in list)
  {
    Filter(x => x != id, list)
  }

  /**
   * `toggleMyList`: a present id leaves the list (all its copies), an
   * absent one joins it at the end.
   */
  function Toggle(list: seq<int>, id: int): (r: seq<int>)
    ensures id in r <==> id !in list
    ensures forall x :: x != id ==> (x in r <==> x in list)
  {
    if id in list then Remove(list, id) else list + [id]
  }

  /**
   * Removal is exact: every other id keeps its number of occurrences and
   * its relative order, and `id` is gone.
   */
  lemma {:induction false} RemoveExact(list: seq<int>, id: int)
    ensures forall x :: x != id ==> multiset(Remove(list, id))[x] == multiset(list)[x]
    ensures multiset(Remove(list, id))[id] == 0
    ensures IsSubsequence(Remove(list, id), list)
    decreases |list|
  {
    FilterIsSubsequence(x => x != id, list);
    if list != [] {
      RemoveExact(list[1..], id);
      assert list == [list[0]] + list[1..];
      assert Remove(list, id) == (if list[0] != id then [list[0]] else []) + Remove(list[1..], id);
    }
  }

  /** Removing an id that is not there changes nothing. */
  lemma RemoveAbsent(list: seq<int>, id: int)
    requires id !in list
    ensures Remove(list, id) == list
  {
    FilterAllPass(x => x != id, list);
  }

  /** An absent id is appended at the very end; the old list is untouched before it. */
  lemma ToggleAbsent(list: seq<int>, id: int)
    requires id !in list
    ensures Toggle(list, id) == list + [id]
    ensures |Toggle(list, id)| == |list| + 1
  {
  }

  /** A present id is removed with every copy; everything else keeps count and order. */
  lemma TogglePresent(list: seq<int>, id: int)
    requires id in list
    ensures id !in Toggle(list, id)
    ensures forall x :: x != id ==> multiset(Toggle(list, id))[x] == multiset(list)[x]
    ensures IsSubsequence(Toggle(list, id), list)
    ensures |Toggle(list, id)| < |list|
  {
    assert Toggle(list, id) == Remove(list, id);
    RemoveExact(list, id);
    RemoveShrinks(list, id);
  }

  /** Removing an id that occurs makes the list strictly shorter. */
  lemma RemoveShrinks(list: seq<int>, id: int)
    requires id in list
    ensures |Remove(list, id)| < |list|
  {
    var r := Remove(list, id);
    RemoveExact(list, id);
    assert multiset(list)[id] > 0 by {
      assert list[IndexOf(list, id)] == id;
    }
    var d := multiset(list) - multiset(r);
    assert multiset(list) == multiset(r) + d;
    assert d[id] > 0;
  }

  /** Toggling an absent id twice gives back the original list. */
  lemma {:induction false} ToggleTwiceAbsent(list: seq<int>, id: int)
    requires id !in list
    ensures Toggle(Toggle(list, id), id) == list
  {
    var once := list + [id];
    assert Toggle(list, id) == once;
    FilterConcat(x => x != id, list, [id]);
    RemoveAbsent(list, id);
    assert Remove([id], id) == [] by {
      assert [id][1..] == [];
    }
  }

  /**
   * Toggling a present id twice restores its membership, but moves it to
   * the end and collapses duplicate copies into one.
   */
  lemma ToggleTwicePresent(list: seq<int>, id: int)
    requires id in list
    ensures Toggle(Toggle(list, id), id) == Remove(list, id) + [id]
    ensures id in Toggle(Toggle(list, id), id)
  {
  }

  /** The position of a value known to occur. */
  function IndexOf(list: seq<int>, x: int): (i: nat)
    requires x in list
    ensures i < |list| && list[i] == x
  {
    if list[0] == x then 0 else 1 + IndexOf(list[1..], x)
  }

  predicate NoDuplicates(list: seq<int>)
  {
    forall i, j :: 0 <= i < j < |list| ==> list[i] != list[j]
  }

  /** A list without duplicates stays without duplicates under any toggle. */
  lemma ToggleKeepsDistinct(list: seq<int>, id: int)
    requires NoDuplicates(list)
    ensures NoDuplicates(Toggle(list, id))
  {
    if id in list {
      var r := Toggle(list, id);
      RemoveExact(list, id);
      forall i, j | 0 <= i < j < |r| ensures r[i] != r[j] {
        DistinctCount(list, r[i]);
        if r[i] == r[j] {
          DuplicateCount(r, i, j);
          assert false;
        }
      }
    }
  }

  /** Two equal entries mean the value occurs at least twice. */
  lemma DuplicateCount(s: seq<int>, i: int, j: int)
    requires 0 <= i < j < |s| && s[i] == s[j]
    ensures multiset(s)[s[i]] >= 2
  {
    assert s == s[..i] + [s[i]] + s[i + 1..j] + [s[j]] + s[j + 1..];
  }

  /** In a list without duplicates every value occurs at most once. */
  lemma {:induction false} DistinctCount(s: seq<int>, x: int)
    requires NoDuplicates(s)
    ensures multiset(s)[x] <= 1
    decreases |s|
  {
    if s != [] {
      assert s == [s[0]] + s[1..];
      DistinctCount(s[1..], x);
      if s[0] == x {
        assert x !in s[1..] by {
          forall k | 0 <= k < |s[1..]| ensures s[1..][k] != x {
            assert s[1..][k] == s[k + 1];
          }
        }
      }
    }
  }
}
