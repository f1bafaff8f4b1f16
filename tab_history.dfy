/**
 * The tab-id history kept in extension storage (src/utils/tabHistory.ts):
 * a most-recent-first list of tab ids, without repeats, at most 100 long.
 */
module TabHistory {
  import opened Wrappers
  import opened Seqs

  const MaxHistorySize: nat := 100

  /**
   * `addTabToHistory(tabId)` on a stored list: the id moves to the front, the
   * other ids keep their order, and the list is cut to 100 entries.
   */
  function AddedToHistory(history: seq<int>, tabId: int): (r: seq<int>)
    ensures r != [] && r[0] == tabId && tabId !in r[1..]
    ensures |r| <= MaxHistorySize
    ensures r[1..] == Take(Filter(history, id => id != tabId), MaxHistorySize - 1)
    ensures forall id :: id in r ==> id == tabId || id in history
  {
    var others := Filter(history, id => id != tabId);
    var moved := [tabId] + others;
    var r := if |moved| > MaxHistorySize then moved[..MaxHistorySize] else moved;
    assert r[1..] == Take(others, MaxHistorySize - 1);
    assert forall i :: 1 <= i < |r| ==> r[i] == r[1..][i - 1] && r[1..][i - 1] in others;
    r
  }

  /** Adding the same id twice in a row is adding it once. */
  lemma AddTwice(history: seq<int>, tabId: int)
    ensures AddedToHistory(AddedToHistory(history, tabId), tabId) == AddedToHistory(history, tabId)
  {
    var once := AddedToHistory(history, tabId);
    FilterAllPass(once[1..], id => id != tabId);
    assert once == [once[0]] + once[1..];
    assert Filter(once, id => id != tabId) == once[1..];
  }

  /** A list without repeats stays without repeats. */
  lemma AddKeepsDistinct(history: seq<int>, tabId: int)
    requires Distinct(history)
    ensures Distinct(AddedToHistory(history, tabId))
  {
    var others := Filter(history, id => id != tabId);
    FilterDistinct(history, id => id != tabId);
    var r := AddedToHistory(history, tabId);
    forall i, j | 0 <= i < j < |r| ensures r[i] != r[j] {
      if i == 0 {
        assert r[j] in r[1..];
      } else {
        assert r[i] == others[i - 1] && r[j] == others[j - 1];
      }
    }
  }

  /**
   * `getPreviousTabId(current)`: the id right after the first occurrence of
   * `current`, or nothing when `current` is absent or last.
   */
  function PreviousTabId(history: seq<int>, current: int): (r: Option<int>)
    ensures r.None? <==> current !in history || Find(history, current).value == |history| - 1
    ensures r.Some? ==>
      exists i :: 0 <= i < |history| - 1 && history[i] == current && current !in history[..i] && history[i + 1] == r.value
  {
    match Find(history, current)
    case None => None
    case Some(i) => if i + 1 < |history| then Some(history[i + 1]) else None
  }

  /** Visiting `a` and then `b` makes `a` the previous tab of `b`. */
  lemma PreviousAfterTwoVisits(history: seq<int>, a: int, b: int)
    requires a != b
    ensures PreviousTabId(AddedToHistory(AddedToHistory(history, a), b), b) == Some(a)
  {
    var h1 := AddedToHistory(history, a);
    var h2 := AddedToHistory(h1, b);
    var others := Filter(h1, id => id != b);
    assert h1[0] == a;
    assert others[0] == a;
    assert h2[1] == a;
    assert Find(h2, b) == Some(0);
  }

  /** The stored history (`chrome.storage.local`, key "tabHistory"). */
  class TabHistoryStore {
    var history: seq<int>

    /** A missing key reads as the empty list. */
    constructor()
      ensures history == []
    {
      history := [];
    }

    method AddTabToHistory(tabId: int)
      modifies this
      ensures history == AddedToHistory(old(history), tabId)
    {
      var h := Filter(history, id => id != tabId);
      h := [tabId] + h;
      if |h| > MaxHistorySize {
        h := h[..MaxHistorySize];
      }
      history := h;
    }

    method GetPreviousTabId(current: int) returns (r: Option<int>)
      ensures r == PreviousTabId(history, current)
    {
      var index := Find(history, current);
      if index.Some? && index.value + 1 < |history| {
        return Some(history[index.value + 1]);
      }
      return None;
    }
  }
}
