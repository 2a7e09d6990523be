/**
 * The category selection of the Points screen of the mobile client
 * (mobile/src/pages/Points/index.tsx): tapping a category toggles its id in
 * `selectedItems`, the selection is highlighted in the category strip, and
 * every change of the selection issues a `points` request whose criteria are
 * the route's `uf` and `city` together with the current selection.
 */
module Points {

  /** The route parameters the screen is opened with (`interface Params`). */
  datatype Params = Params(uf: string, city: string)

  /** A category as the `items` endpoint returns it (`interface Item`). */
  datatype Item = Item(id: int, title: string, imageUrl: string)

  /** The query object passed as `params` to `api.get('points', ...)`. */
  datatype PointsQuery = PointsQuery(city: string, uf: string, items: seq<int>)

  /** No id occurs twice. */
  predicate NoDuplicates(s: seq<int>)
  {
    forall i, j :: 0 <= i < j < |s| ==> s[i] != s[j]
  }

  /** `r` is `s` with some of its elements dropped, the rest kept in order. */
  predicate IsSubsequence(r: seq<int>, s: seq<int>)
    decreases |s|
  {
    r == [] ||
    (s != [] &&
     ((r[0] == s[0] && IsSubsequence(r[1..], s[1..])) || IsSubsequence(r, s[1..])))
  }

  /** `selectedItems.findIndex(item => item === id)`: the first position of `id`, or -1. */
  function FindIndex(s: seq<int>, id: int): (r: int)
    ensures -1 <= r < |s|
    ensures r == -1 <==> id !in s
    ensures 0 <= r ==> s[r] == id && id !in s[..r]
  {
    if s == [] then -1
    else if s[0] == id then 0
    else
      var k := FindIndex(s[1..], id);
      if k < 0 then -1
      else
        assert s[..k + 1] == [s[0]] + s[1..][..k];
        k + 1
  }

  /** `selectedItems.filter(item => item !== id)`. */
  function Without(s: seq<int>, id: int): (r: seq<int>)
    ensures id !in r
    ensures forall x :: x != id ==> (x in r <==> x in s)
    ensures multiset(r) == multiset(s)[id := 0]
  {
    if s == [] then []
    else
      assert s == [s[0]] + s[1..];
      if s[0] == id then Without(s[1..], id)
      else [s[0]] + Without(s[1..], id)
  }

  /** `selectedItems.includes(id)`. */
  function Includes(s: seq<int>, id: int): (r: bool)
    ensures r <==> id in s
  {
    if s == [] then false
    else s[0] == id || Includes(s[1..], id)
  }

  /**
   * The new selection after tapping the category `id`: an id already selected
   * is filtered out, any other id is appended at the end.
   */
  function Toggle(selected: seq<int>, id: int): (r: seq<int>)
    ensures id in r <==> id !in selected
    ensures forall x :: x != id ==> (x in r <==> x in selected)
    ensures id !in selected ==> r == selected + [id]
    ensures id in selected ==> multiset(r) == multiset(selected)[id := 0]
  {
    if FindIndex(selected, id) >= 0 then Without(selected, id)
    else selected + [id]
  }

  /** The criteria sent with the `points` request for a given selection. */
  function Criteria(route: Params, selected: seq<int>): (q: PointsQuery)
    ensures q.uf == route.uf && q.city == route.city
    ensures q.items == selected
    ensures forall id :: id in q.items <==> Includes(selected, id)
    ensures |q.items| == |selected|
  {
    PointsQuery(route.city, route.uf, selected)
  }

  /**
   * The highlight flags of the category strip: the category at position `i`
   * is drawn with the selected style exactly when its id is selected.
   */
  function Highlights(items: seq<Item>, selected: seq<int>): (hs: seq<bool>)
    ensures |hs| == |items|
    ensures forall i :: 0 <= i < |items| ==> (hs[i] <==> items[i].id in selected)
  {
    seq(|items|, i requires 0 <= i < |items| => Includes(selected, items[i].id))
  }

  /** Filtering distributes over concatenation, which is why it keeps the order. */
  lemma {:induction false} WithoutAppend(a: seq<int>, b: seq<int>, id: int)
    ensures Without(a + b, id) == Without(a, id) + Without(b, id)
  {
    if a == [] {
      assert a + b == b;
    } else {
      assert (a + b)[0] == a[0] && (a + b)[1..] == a[1..] + b;
      WithoutAppend(a[1..], b, id);
    }
  }

  /** Filtering out an id that does not occur changes nothing. */
  lemma {:induction false} WithoutAbsent(s: seq<int>, id: int)
    requires id !in s
    ensures Without(s, id) == s
  {
    if s != [] {
      WithoutAbsent(s[1..], id);
    }
  }

  /** Filtering keeps the remaining ids in their relative order. */
  lemma {:induction false} WithoutIsSubsequence(s: seq<int>, id: int)
    ensures IsSubsequence(Without(s, id), s)
  {
    if s != [] {
      WithoutIsSubsequence(s[1..], id);
    }
  }

  /** Any subsequence of a duplicate-free sequence is duplicate-free. */
  lemma {:induction false} SubsequenceNoDuplicates(r: seq<int>, s: seq<int>)
    requires IsSubsequence(r, s) && NoDuplicates(s)
    ensures NoDuplicates(r)
    decreases |s|
  {
    if r != [] {
      assert NoDuplicates(s[1..]) by {
        forall i, j | 0 <= i < j < |s[1..]| ensures s[1..][i] != s[1..][j] {
          assert s[1..][i] == s[i + 1] && s[1..][j] == s[j + 1];
        }
      }
      if r[0] == s[0] && IsSubsequence(r[1..], s[1..]) {
        SubsequenceNoDuplicates(r[1..], s[1..]);
        SubsequenceMembers(r[1..], s[1..]);
        assert s[0] !in s[1..] by {
          forall j | 0 <= j < |s[1..]| ensures s[1..][j] != s[0] {
            assert s[1..][j] == s[j + 1];
          }
        }
        forall i, j | 0 <= i < j < |r| ensures r[i] != r[j] {
          if i == 0 {
            assert r[j] == r[1..][j - 1];
            assert r[j] in r[1..];
          } else {
            assert r[i] == r[1..][i - 1] && r[j] == r[1..][j - 1];
          }
        }
      } else {
        SubsequenceNoDuplicates(r, s[1..]);
      }
    }
  }

  /** Every element of a subsequence occurs in the sequence. */
  lemma {:induction false} SubsequenceMembers(r: seq<int>, s: seq<int>)
    requires IsSubsequence(r, s)
    ensures forall x :: x in r ==> x in s
    decreases |s|
  {
    if r != [] {
      if r[0] == s[0] && IsSubsequence(r[1..], s[1..]) {
        SubsequenceMembers(r[1..], s[1..]);
        assert r == [r[0]] + r[1..];
      } else {
        SubsequenceMembers(r, s[1..]);
      }
    }
  }

  /** Removing an id by a toggle keeps the other ids in their order. */
  lemma ToggleRemovalKeepsOrder(selected: seq<int>, id: int)
    requires id in selected
    ensures IsSubsequence(Toggle(selected, id), selected)
  {
    WithoutIsSubsequence(selected, id);
  }

  /** A toggle keeps a selection free of duplicates. */
  lemma ToggleNoDuplicates(selected: seq<int>, id: int)
    requires NoDuplicates(selected)
    ensures NoDuplicates(Toggle(selected, id))
  {
    if id in selected {
      WithoutIsSubsequence(selected, id);
      SubsequenceNoDuplicates(Without(selected, id), selected);
    }
  }

  /** Tapping an unselected category twice restores the selection. */
  lemma ToggleTwice(selected: seq<int>, id: int)
    requires id !in selected
    ensures Toggle(Toggle(selected, id), id) == selected
  {
    WithoutAppend(selected, [id], id);
    WithoutAbsent(selected, id);
    assert Without([id], id) == [];
  }

  /**
   * Tapping a selected category twice removes every occurrence of it and
   * appends it once at the end of the remaining ids.
   */
  lemma ToggleTwiceSelected(selected: seq<int>, id: int)
    requires id in selected
    ensures Toggle(Toggle(selected, id), id) == Without(selected, id) + [id]
  {
  }

  /** Concretely: with [1, 2] selected, tapping 1 twice yields [2, 1], not [1, 2]. */
  lemma ToggleTwiceReorders()
    ensures Toggle(Toggle([1, 2], 1), 1) == [2, 1]
    ensures Toggle(Toggle([1, 2], 1), 1) != [1, 2]
  {
    assert Without([1, 2], 1) == [2];
  }

  /** The selection after the taps `taps`, starting from the empty selection. */
  function Taps(taps: seq<int>): seq<int>
  {
    if taps == [] then [] else Toggle(Taps(taps[..|taps| - 1]), taps[|taps| - 1])
  }

  /** How often `id` occurs in `s`. */
  function Count(s: seq<int>, id: int): nat
  {
    if s == [] then 0
    else Count(s[..|s| - 1], id) + (if s[|s| - 1] == id then 1 else 0)
  }

  /**
   * Whatever the taps, the selection holds each id at most once, and holds
   * exactly the ids tapped an odd number of times.
   */
  lemma {:induction false} TapsParity(taps: seq<int>)
    ensures NoDuplicates(Taps(taps))
    ensures forall id :: id in Taps(taps) <==> Count(taps, id) % 2 == 1
  {
    if taps != [] {
      var prefix := taps[..|taps| - 1];
      TapsParity(prefix);
      ToggleNoDuplicates(Taps(prefix), taps[|taps| - 1]);
    }
  }

  /**
   * The state of the Points screen: the categories loaded from the server
   * and the ids of the categories the user has selected.
   */
  class PointsScreen {
    const routeParams: Params
    var items: seq<Item>
    var selectedItems: seq<int>

    /** The selection never holds an id twice. */
    ghost predicate Valid()
      reads this
    {
      NoDuplicates(selectedItems)
    }

    /** Mounting the screen: nothing loaded and nothing selected yet. */
    constructor (route: Params)
      ensures Valid()
      ensures routeParams == route && items == [] && selectedItems == []
      ensures Criteria(routeParams, selectedItems) == PointsQuery(route.city, route.uf, [])
    {
      routeParams := route;
      items := [];
      selectedItems := [];
    }

    /** The `items` response replaces the category list. */
    method ReceiveItems(response: seq<Item>)
      requires Valid()
      modifies this
      ensures Valid()
      ensures items == response && selectedItems == old(selectedItems)
    {
      items := response;
    }

    /**
     * `handleSelectItem(id)`: toggles `id` in the selection; the new selection
     * triggers a `points` request with the returned criteria.
     */
    method HandleSelectItem(id: int) returns (request: PointsQuery)
      requires Valid()
      modifies this
      ensures Valid()
      ensures selectedItems == Toggle(old(selectedItems), id)
      ensures items == old(items)
      ensures request == Criteria(routeParams, selectedItems)
    {
      ToggleNoDuplicates(selectedItems, id);
      selectedItems := Toggle(selectedItems, id);
      request := Criteria(routeParams, selectedItems);
    }

    /** The highlight flags of the rendered category strip. */
    method Highlighted() returns (hs: seq<bool>)
      ensures hs == Highlights(items, selectedItems)
      ensures |hs| == |items|
      ensures forall i :: 0 <= i < |items| ==> (hs[i] <==> items[i].id in selectedItems)
    {
      hs := Highlights(items, selectedItems);
    }
  }
}
