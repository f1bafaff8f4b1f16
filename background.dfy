/**
 * The list logic of the background script (src/background.ts): the
 * entry history and access times kept in storage, and the message handlers
 * GET_TABS, CLOSE_TAB, CLOSE_DUPLICATE_TABS, CREATE_TAB_GROUP and
 * DELETE_TAB_GROUP with every Chrome reply given as an input.
 */
module Background {
  import opened Wrappers
  import opened Strings
  import opened Seqs
  import opened CommandTypes

  const MaxHistorySize: nat := 100
  const MaxListedTabs: nat := 50

  /** `TabHistoryEntry`. */
  datatype Entry = Entry(tabId: int, windowId: int, timestamp: int)

  /**
   * `pushTabToHistory` on a stored list: the new entry first, then the
   * entries of other tabs in their order, cut to 100 entries.
   */
  function Pushed(history: seq<Entry>, tabId: int, windowId: int, now: int): (r: seq<Entry>)
    ensures r != [] && r[0] == Entry(tabId, windowId, now)
    ensures forall i :: 1 <= i < |r| ==> r[i].tabId != tabId
    ensures |r| <= MaxHistorySize
    ensures r[1..] == Take(Filter(history, (e: Entry) => e.tabId != tabId), MaxHistorySize - 1)
  {
    var others := Filter(history, (e: Entry) => e.tabId != tabId);
    var pushed := [Entry(tabId, windowId, now)] + others;
    var r := if |pushed| > MaxHistorySize then pushed[..MaxHistorySize] else pushed;
    assert r[1..] == Take(others, MaxHistorySize - 1);
    assert forall i :: 1 <= i < |r| ==> r[i] == r[1..][i - 1] && r[1..][i - 1] in others;
    r
  }

  /** The history never holds two entries for the same tab once it has been pushed to from empty. */
  ghost predicate OneEntryPerTab(history: seq<Entry>)
  {
    forall i, j :: 0 <= i < j < |history| ==> history[i].tabId != history[j].tabId
  }

  lemma {:induction false} FilterOneEntryPerTab(history: seq<Entry>, p: Entry -> bool)
    requires OneEntryPerTab(history)
    ensures OneEntryPerTab(Filter(history, p))
    decreases |history|
  {
    if history != [] {
      FilterOneEntryPerTab(history[1..], p);
      if p(history[0]) {
        var rest := Filter(history[1..], p);
        var r := Filter(history, p);
        assert r == [history[0]] + rest;
        forall i, j | 0 <= i < j < |r| ensures r[i].tabId != r[j].tabId {
          if i == 0 {
            assert r[j] in history[1..];
          } else {
            assert r[i] == rest[i - 1] && r[j] == rest[j - 1];
          }
        }
      }
    }
  }

  /** Pushing keeps at most one entry per tab. */
  lemma PushKeepsOneEntryPerTab(history: seq<Entry>, tabId: int, windowId: int, now: int)
    requires OneEntryPerTab(history)
    ensures OneEntryPerTab(Pushed(history, tabId, windowId, now))
  {
    var others := Filter(history, (e: Entry) => e.tabId != tabId);
    FilterOneEntryPerTab(history, (e: Entry) => e.tabId != tabId);
    var r := Pushed(history, tabId, windowId, now);
    forall i, j | 0 <= i < j < |r| ensures r[i].tabId != r[j].tabId {
      if i > 0 {
        assert r[i] == others[i - 1] && r[j] == others[j - 1];
      }
    }
  }

  /** The test `getPreviousTab` applies to each entry; `alive` says whether `chrome.tabs.get` succeeds. */
  function PreviousCandidate(currentTabId: int, alive: int -> bool): Entry -> bool
  {
    (e: Entry) => e.tabId != currentTabId && alive(e.tabId)
  }

  /**
   * `getPreviousTab(current)`: the first entry, in history order, for another
   * tab that still exists.
   */
  function PreviousTab(history: seq<Entry>, currentTabId: int, alive: int -> bool): (r: Option<Entry>)
    ensures r.Some? ==> r.value in history && r.value.tabId != currentTabId && alive(r.value.tabId)
    ensures r.None? <==> forall i :: 0 <= i < |history| ==> history[i].tabId == currentTabId || !alive(history[i].tabId)
    ensures r.Some? ==>
      exists i :: 0 <= i < |history| && history[i] == r.value && forall k :: 0 <= k < i ==> history[k].tabId == currentTabId || !alive(history[k].tabId)
  {
    match FirstIndex(history, PreviousCandidate(currentTabId, alive))
    case None => None
    case Some(i) => Some(history[i])
  }

  /** The entries `cleanupTabHistory` keeps: those whose tab still exists. */
  function EntryAlive(alive: int -> bool): Entry -> bool
  {
    (e: Entry) => alive(e.tabId)
  }

  /** `cleanupTabHistory` keeps exactly the entries whose tab exists, in order. */
  function CleanedHistory(history: seq<Entry>, alive: int -> bool): (r: seq<Entry>)
    ensures forall e :: e in r <==> e in history && alive(e.tabId)
    ensures IsSubseq(r, history)
  {
    Filter(history, EntryAlive(alive))
  }

  /** A filter that keeps as many elements as it was given keeps them all. */
  lemma {:induction false} FilterSameLength<T(!new)>(s: seq<T>, p: T -> bool)
    requires |Filter(s, p)| == |s|
    ensures Filter(s, p) == s
    decreases |s|
  {
    if s != [] {
      if p(s[0]) {
        FilterSameLength(s[1..], p);
      }
    }
  }

  /** The access time a stored record gives a tab: `accessTimes[id] || 0`. */
  function TimeOf(accessTimes: map<int, int>, tabId: int): int
  {
    if tabId in accessTimes && accessTimes[tabId] != 0 then accessTimes[tabId] else 0
  }

  /**
   * `cleanupTabAccessTimes(existing)`: the times of existing tabs that have a
   * truthy time, unchanged; nothing else.
   */
  function CleanedAccessTimes(accessTimes: map<int, int>, existing: seq<int>): (r: map<int, int>)
    ensures forall id :: id in r <==> id in existing && id in accessTimes && accessTimes[id] != 0
    ensures forall id :: id in r ==> r[id] == accessTimes[id]
  {
    map id | id in existing && id in accessTimes && accessTimes[id] != 0 :: accessTimes[id]
  }

  /** A tab as GET_TABS answers it, with its `lastAccessed` time. */
  datatype TimedTab = TimedTab(tab: Tab, lastAccessed: int)

  function WithAccessTimes(tabs: seq<Tab>, accessTimes: map<int, int>): (r: seq<TimedTab>)
    ensures |r| == |tabs| && forall i :: 0 <= i < |tabs| ==> r[i] == TimedTab(tabs[i], TimeOf(accessTimes, tabs[i].id))
  {
    seq(|tabs|, i requires 0 <= i < |tabs| => TimedTab(tabs[i], TimeOf(accessTimes, tabs[i].id)))
  }

  ghost predicate MostRecentFirst(s: seq<TimedTab>)
  {
    forall i, j :: 0 <= i < j < |s| ==> s[i].lastAccessed >= s[j].lastAccessed
  }

  /** Places `x` before the first element that is not more recent than it. */
  function Insert(x: TimedTab, s: seq<TimedTab>): (r: seq<TimedTab>)
    ensures |r| == |s| + 1
    ensures multiset(r) == multiset(s) + multiset{x}
  {
    if s == [] then [x]
    else if x.lastAccessed >= s[0].lastAccessed then [x] + s
    else
      assert s == [s[0]] + s[1..];
      [s[0]] + Insert(x, s[1..])
  }

  /** Inserting into a list that is most recent first keeps it so. */
  lemma {:induction false} InsertKeepsOrder(x: TimedTab, s: seq<TimedTab>)
    requires MostRecentFirst(s)
    ensures MostRecentFirst(Insert(x, s))
  {
    if s != [] && x.lastAccessed < s[0].lastAccessed {
      var rest := Insert(x, s[1..]);
      InsertKeepsOrder(x, s[1..]);
      HeadAboveInsert(x, s);
      ConsKeepsOrder(s[0], rest);
      assert Insert(x, s) == [s[0]] + rest;
    }
  }

  /** The head of the list is more recent than everything the insertion into its tail holds. */
  lemma HeadAboveInsert(x: TimedTab, s: seq<TimedTab>)
    requires MostRecentFirst(s) && s != [] && x.lastAccessed < s[0].lastAccessed
    ensures forall j :: 0 <= j < |Insert(x, s[1..])| ==> s[0].lastAccessed >= Insert(x, s[1..])[j].lastAccessed
  {
    var rest := Insert(x, s[1..]);
    forall j | 0 <= j < |rest| ensures s[0].lastAccessed >= rest[j].lastAccessed {
      assert rest[j] in multiset(rest);
      if rest[j] != x {
        assert rest[j] in multiset(s[1..]);
        var k :| 0 <= k < |s[1..]| && s[1..][k] == rest[j];
        assert s[k + 1] == rest[j];
      }
    }
  }

  /** An element more recent than everything in an ordered list can go in front of it. */
  lemma ConsKeepsOrder(h: TimedTab, rest: seq<TimedTab>)
    requires MostRecentFirst(rest)
    requires forall j :: 0 <= j < |rest| ==> h.lastAccessed >= rest[j].lastAccessed
    ensures MostRecentFirst([h] + rest)
  {
    var r := [h] + rest;
    forall i, j | 0 <= i < j < |r| ensures r[i].lastAccessed >= r[j].lastAccessed {
      if i == 0 {
        assert r[j] == rest[j - 1];
      } else {
        assert r[i] == rest[i - 1] && r[j] == rest[j - 1];
      }
    }
  }

  /**
   * `sort((a, b) => b.lastAccessed - a.lastAccessed)`: most recent first,
   * the same elements.
   */
  function SortByRecency(s: seq<TimedTab>): (r: seq<TimedTab>)
    ensures |r| == |s|
    ensures MostRecentFirst(r)
    ensures multiset(r) == multiset(s)
  {
    if s == [] then []
    else
      assert s == [s[0]] + s[1..];
      InsertKeepsOrder(s[0], SortByRecency(s[1..]));
      Insert(s[0], SortByRecency(s[1..]))
  }

  /**
   * GET_TABS: each tab with its access time (0 when none is stored), most
   * recent first, at most 50.
   */
  function ListedTabs(tabs: seq<Tab>, accessTimes: map<int, int>): (r: seq<TimedTab>)
    ensures |r| == if |tabs| < MaxListedTabs then |tabs| else MaxListedTabs
    ensures MostRecentFirst(r)
    ensures multiset(r) <= multiset(WithAccessTimes(tabs, accessTimes))
  {
    var sorted := SortByRecency(WithAccessTimes(tabs, accessTimes));
    var r := Take(sorted, MaxListedTabs);
    assert sorted == r + sorted[|r|..];
    r
  }

  /** A tab left out of the listing is no more recent than any tab listed. */
  lemma ListedAreMostRecent(tabs: seq<Tab>, accessTimes: map<int, int>, i: nat, j: nat)
    requires |tabs| > MaxListedTabs
    requires i < MaxListedTabs <= j < |tabs|
    ensures ListedTabs(tabs, accessTimes)[i].lastAccessed >= SortByRecency(WithAccessTimes(tabs, accessTimes))[j].lastAccessed
  {
    var sorted := SortByRecency(WithAccessTimes(tabs, accessTimes));
    assert ListedTabs(tabs, accessTimes)[i] == sorted[i];
  }

  /** The answer the background script sends back; "" and `None` stand for absent fields. */
  datatype HandlerResponse = HandlerResponse(success: bool, message: string, error: string, closedCount: Option<int>, groupId: Option<int>)

  function Failed(error: string): (a: HandlerResponse)
    ensures !a.success && a.error == error
  {
    HandlerResponse(false, "", error, None, None)
  }

  /** A CLOSE_TAB message: `tabIds` is `None` when it is not an array; a `tabId` of 0 is absent. */
  datatype CloseTabMessage = CloseTabMessage(tabIds: Option<seq<int>>, tabId: int)

  /** `Array.isArray(tabIds) ? tabIds : (tabId ? [tabId] : [])`. */
  function CloseTabIds(message: CloseTabMessage): (ids: seq<int>)
    ensures message.tabIds.Some? ==> ids == message.tabIds.value
    ensures message.tabIds.None? && message.tabId != 0 ==> ids == [message.tabId]
    ensures message.tabIds.None? && message.tabId == 0 ==> ids == []
  {
    match message.tabIds
    case Some(ids) => ids
    case None => if message.tabId != 0 then [message.tabId] else []
  }

  /**
   * CLOSE_TAB: with no ids, a failure and no removal; otherwise the ids are
   * removed, and `lastError` decides between its message and the count.
   */
  function CloseTab(message: CloseTabMessage, lastError: Option<string>): (r: (Option<seq<int>>, HandlerResponse))
    ensures CloseTabIds(message) == [] ==> r == (None, Failed("No tab IDs provided"))
    ensures CloseTabIds(message) != [] ==> r.0 == Some(CloseTabIds(message))
    ensures CloseTabIds(message) != [] && lastError.Some? ==> r.1 == Failed(lastError.value)
    ensures CloseTabIds(message) != [] && lastError.None? ==>
      r.1 == HandlerResponse(true, "", "", Some(|CloseTabIds(message)|), None)
  {
    var ids := CloseTabIds(message);
    if |ids| == 0 then (None, Failed("No tab IDs provided"))
    else if lastError.Some? then (Some(ids), Failed(lastError.value))
    else (Some(ids), HandlerResponse(true, "", "", Some(|ids|), None))
  }

  /** A tab CLOSE_DUPLICATE_TABS looks at: it has a url and a (non-zero) id. */
  predicate Considered(tab: Tab)
  {
    tab.url != "" && tab.id != 0
  }

  /**
   * The ids of the considered tabs whose url, without its fragment, is `u`,
   * in query order; `strip` is `new URL(url)` with the hash cleared, `None`
   * when the url does not parse.
   */
  function UrlIds(tabs: seq<Tab>, strip: string -> Option<string>, u: string): seq<int>
    decreases |tabs|
  {
    if tabs == [] then []
    else
      var last := tabs[|tabs| - 1];
      UrlIds(tabs[..|tabs| - 1], strip, u)
        + if Considered(last) && strip(last.url) == Some(u) then [last.id] else []
  }

  /** `urlMap` after the first loop: each normalised url with the ids seen for it. */
  function UrlGroups(tabs: seq<Tab>, strip: string -> Option<string>): (m: OrderedMap<string, seq<int>>)
    ensures m.Valid()
    decreases |tabs|
  {
    if tabs == [] then EmptyMap()
    else
      var m := UrlGroups(tabs[..|tabs| - 1], strip);
      var last := tabs[|tabs| - 1];
      if Considered(last) && strip(last.url).Some? then
        var u := strip(last.url).value;
        m.Put(u, m.Get(u).GetOr([]) + [last.id])
      else m
  }

  /** Each url of the map holds exactly the ids of the tabs with that url, in order. */
  lemma {:induction false} UrlGroupsIds(tabs: seq<Tab>, strip: string -> Option<string>, u: string)
    ensures UrlGroups(tabs, strip).Get(u) == if UrlIds(tabs, strip, u) == [] then None else Some(UrlIds(tabs, strip, u))
    decreases |tabs|
  {
    if tabs != [] {
      var init := tabs[..|tabs| - 1];
      var last := tabs[|tabs| - 1];
      UrlGroupsIds(init, strip, u);
      if Considered(last) && strip(last.url) == Some(u) {
        assert UrlIds(tabs, strip, u) == UrlIds(init, strip, u) + [last.id];
      } else {
        assert UrlIds(tabs, strip, u) == UrlIds(init, strip, u);
      }
    }
  }

  /** The ids the second loop collects from the urls `keys`: all but the first of each. */
  function Surplus(m: OrderedMap<string, seq<int>>, keys: seq<string>): seq<int>
    requires forall k :: k in keys ==> k in m.values
    decreases |keys|
  {
    if keys == [] then []
    else
      var ids := m.values[keys[|keys| - 1]];
      Surplus(m, keys[..|keys| - 1]) + if |ids| > 1 then ids[1..] else []
  }

  /** The ids of every tab but the first for each url in `urls`. */
  function AllButFirst(tabs: seq<Tab>, strip: string -> Option<string>, urls: seq<string>): seq<int>
    decreases |urls|
  {
    if urls == [] then []
    else
      var ids := UrlIds(tabs, strip, urls[|urls| - 1]);
      AllButFirst(tabs, strip, urls[..|urls| - 1]) + if ids == [] then [] else ids[1..]
  }

  /** An id the second loop of CLOSE_DUPLICATE_TABS picks up for the url `u`. */
  predicate SurplusFor(tabs: seq<Tab>, strip: string -> Option<string>, u: string, id: int)
  {
    var ids := UrlIds(tabs, strip, u);
    ids != [] && id in ids[1..]
  }

  /**
   * An id is closed exactly when it belongs to one of the urls and is not
   * the first id seen with that url.
   */
  lemma AllButFirstMembers(tabs: seq<Tab>, strip: string -> Option<string>, urls: seq<string>, id: int)
    ensures id in AllButFirst(tabs, strip, urls) <==> exists u :: u in urls && SurplusFor(tabs, strip, u, id)
  {
    if id in AllButFirst(tabs, strip, urls) {
      AllButFirstSound(tabs, strip, urls, id);
    }
    if exists u :: u in urls && SurplusFor(tabs, strip, u, id) {
      var u :| u in urls && SurplusFor(tabs, strip, u, id);
      AllButFirstComplete(tabs, strip, urls, u, id);
    }
  }

  /** Every closed id is a later id of one of the urls. */
  lemma {:induction false} AllButFirstSound(tabs: seq<Tab>, strip: string -> Option<string>, urls: seq<string>, id: int)
    requires id in AllButFirst(tabs, strip, urls)
    ensures exists u :: u in urls && SurplusFor(tabs, strip, u, id)
    decreases |urls|
  {
    var init, last := urls[..|urls| - 1], urls[|urls| - 1];
    var ids := UrlIds(tabs, strip, last);
    var tail := if ids == [] then [] else ids[1..];
    assert AllButFirst(tabs, strip, urls) == AllButFirst(tabs, strip, init) + tail;
    assert urls == init + [last];
    if id in tail {
      assert last in urls && SurplusFor(tabs, strip, last, id);
    } else {
      AllButFirstSound(tabs, strip, init, id);
      var u :| u in init && SurplusFor(tabs, strip, u, id);
      assert u in urls;
    }
  }

  /** Every later id of one of the urls is closed. */
  lemma {:induction false} AllButFirstComplete(tabs: seq<Tab>, strip: string -> Option<string>, urls: seq<string>, u: string, id: int)
    requires u in urls && SurplusFor(tabs, strip, u, id)
    ensures id in AllButFirst(tabs, strip, urls)
    decreases |urls|
  {
    var init, last := urls[..|urls| - 1], urls[|urls| - 1];
    var ids := UrlIds(tabs, strip, last);
    var tail := if ids == [] then [] else ids[1..];
    assert AllButFirst(tabs, strip, urls) == AllButFirst(tabs, strip, init) + tail;
    assert urls == init + [last];
    if u != last {
      assert u in init;
      AllButFirstComplete(tabs, strip, init, u, id);
    }
  }

  /**
   * The tabs CLOSE_DUPLICATE_TABS closes: for each normalised url, in the
   * order urls were first seen, every tab with it but the first.
   */
  lemma {:induction false} SurplusIsAllButFirst(tabs: seq<Tab>, strip: string -> Option<string>, keys: seq<string>)
    requires forall k :: k in keys ==> k in UrlGroups(tabs, strip).values
    ensures Surplus(UrlGroups(tabs, strip), keys) == AllButFirst(tabs, strip, keys)
    decreases |keys|
  {
    if keys != [] {
      var k := keys[|keys| - 1];
      SurplusIsAllButFirst(tabs, strip, keys[..|keys| - 1]);
      UrlGroupsIds(tabs, strip, k);
    }
  }

  /** A url is a key of the map exactly when some considered tab has it. */
  lemma UrlGroupsKeys(tabs: seq<Tab>, strip: string -> Option<string>, u: string)
    ensures u in UrlGroups(tabs, strip).keys <==> UrlIds(tabs, strip, u) != []
  {
    UrlGroupsIds(tabs, strip, u);
  }

  /**
   * CREATE_TAB_GROUP: missing or empty ids fail before any Chrome call;
   * otherwise the tabs are grouped, and the group is named `groupName`, or
   * "Group <time>" when it is empty. `grouping` is the new group's id or
   * Chrome's error.
   */
  function CreateTabGroup(tabIds: Option<seq<int>>, groupName: string, grouping: Result<int, string>, timeString: string): (r: (Option<seq<int>>, HandlerResponse))
    ensures r.0.Some? <==> tabIds.Some? && tabIds.value != []
    ensures r.0.None? ==> r.1 == Failed("No tab IDs provided")
    ensures r.0.Some? ==> r.0 == tabIds
    ensures r.0.Some? && grouping.Err? ==> r.1 == Failed(grouping.error)
    ensures r.0.Some? && grouping.Ok? ==>
      && r.1.success && r.1.groupId == Some(grouping.value)
      && r.1.message == "Created group \"" + (if groupName != "" then groupName else "Group " + timeString) + "\" with " + IntToString(|tabIds.value|) + " tabs"
  {
    if tabIds.None? || |tabIds.value| == 0 then (None, Failed("No tab IDs provided"))
    else match grouping
      case Err(e) => (tabIds, Failed(e))
      case Ok(groupId) =>
        var name := if groupName != "" then groupName else "Group " + timeString;
        (tabIds, HandlerResponse(true, "Created group \"" + name + "\" with " + IntToString(|tabIds.value|) + " tabs", "", None, Some(groupId)))
  }

  /**
   * DELETE_TAB_GROUP: a missing or zero group id fails before any Chrome
   * call; otherwise the group's tabs are ungrouped when there are any.
   * `members` is the query of the group's tabs, `lastError` the ungroup reply.
   */
  function DeleteTabGroup(groupId: Option<int>, members: Result<seq<Tab>, string>, lastError: Option<string>): (r: (Option<seq<int>>, HandlerResponse))
    ensures groupId.None? || groupId.value == 0 ==> r == (None, Failed("No group ID provided"))
    ensures r.0.Some? <==> groupId.Some? && groupId.value != 0 && members.Ok? && members.value != []
    ensures r.0.Some? ==> members.Ok? && r.0.value == TabIds(members.value)
    ensures groupId.Some? && groupId.value != 0 && members.Err? ==> r.1 == Failed(members.error)
    ensures groupId.Some? && groupId.value != 0 && members == Ok([]) ==> r.1 == Failed("No tabs found in group")
    ensures r.0.Some? && lastError.Some? ==> r.1 == Failed(lastError.value)
    ensures r.0.Some? && lastError.None? ==>
      && r.1.success && r.1.message == "Ungrouped " + IntToString(|r.0.value|) + " tabs"
    ensures r.1.success <==> groupId.Some? && groupId.value != 0 && members.Ok? && members.value != [] && lastError.None?
  {
    if groupId.None? || groupId.value == 0 then (None, Failed("No group ID provided"))
    else match members
      case Err(e) => (None, Failed(e))
      case Ok(tabs) =>
        var ids := TabIds(tabs);
        if |ids| > 0 then
          if lastError.Some? then (Some(ids), Failed(lastError.value))
          else (Some(ids), HandlerResponse(true, "Ungrouped " + IntToString(|ids|) + " tabs", "", None, None))
        else (None, Failed("No tabs found in group"))
  }

  /** `tabs.map(tab => tab.id)`. */
  function TabIds(tabs: seq<Tab>): (ids: seq<int>)
    ensures |ids| == |tabs| && forall i :: 0 <= i < |tabs| ==> ids[i] == tabs[i].id
  {
    seq(|tabs|, i requires 0 <= i < |tabs| => tabs[i].id)
  }

  /** What the background script keeps in `chrome.storage.local`. */
  class Store {
    /** "tabHistory": most recent first. */
    var history: seq<Entry>
    /** "tabAccessTimes": tab id to the time it was last activated. */
    var accessTimes: map<int, int>

    constructor()
      ensures history == [] && accessTimes == map[]
    {
      history := [];
      accessTimes := map[];
    }

    method PushTabToHistory(tabId: int, windowId: int, now: int)
      modifies this
      ensures history == Pushed(old(history), tabId, windowId, now)
      ensures accessTimes == old(accessTimes)
    {
      var filtered := Filter(history, (e: Entry) => e.tabId != tabId);
      var newHistory := [Entry(tabId, windowId, now)] + filtered;
      if |newHistory| > MaxHistorySize {
        newHistory := newHistory[..MaxHistorySize];
      }
      history := newHistory;
    }

    /** `updateTabAccessTime(tabId)`. */
    method UpdateTabAccessTime(tabId: int, now: int)
      modifies this
      ensures accessTimes == old(accessTimes)[tabId := now]
      ensures history == old(history)
    {
      accessTimes := accessTimes[tabId := now];
    }

    /** The loop of `getPreviousTab`, with `alive` standing for `chrome.tabs.get`. */
    method GetPreviousTab(currentTabId: int, alive: int -> bool) returns (r: Option<Entry>)
      ensures r == PreviousTab(history, currentTabId, alive)
    {
      var i := 0;
      while i < |history|
        invariant 0 <= i <= |history|
        invariant forall k :: 0 <= k < i ==> !PreviousCandidate(currentTabId, alive)(history[k])
      {
        var entry := history[i];
        if entry.tabId != currentTabId && alive(entry.tabId) {
          assert FirstIndex(history, PreviousCandidate(currentTabId, alive)) == Some(i);
          return Some(entry);
        }
        i := i + 1;
      }
      return None;
    }

    /**
     * `cleanupTabHistory`: keeps the entries whose tab exists and stores the
     * list only when something was removed.
     */
    method CleanupTabHistory(alive: int -> bool) returns (saved: bool)
      modifies this
      ensures history == CleanedHistory(old(history), alive)
      ensures saved <==> |CleanedHistory(old(history), alive)| != |old(history)|
      ensures accessTimes == old(accessTimes)
    {
      var stored := history;
      var cleaned: seq<Entry> := [];
      for i := 0 to |stored|
        invariant cleaned == Filter(stored[..i], EntryAlive(alive))
        invariant history == stored && accessTimes == old(accessTimes)
      {
        FilterAppend(stored[..i], [stored[i]], EntryAlive(alive));
        assert stored[..i + 1] == stored[..i] + [stored[i]];
        if alive(stored[i].tabId) {
          cleaned := cleaned + [stored[i]];
        }
      }
      assert stored[..|stored|] == stored;
      assert cleaned == CleanedHistory(stored, alive);
      saved := |cleaned| != |stored|;
      if saved {
        history := cleaned;
      } else {
        FilterSameLength(stored, EntryAlive(alive));
      }
    }

    /** `cleanupTabAccessTimes(existing)`. */
    method CleanupTabAccessTimes(existing: seq<int>)
      modifies this
      ensures accessTimes == CleanedAccessTimes(old(accessTimes), existing)
      ensures history == old(history)
    {
      var cleaned: map<int, int> := map[];
      for i := 0 to |existing|
        invariant cleaned == CleanedAccessTimes(accessTimes, existing[..i])
      {
        assert forall id :: id in existing[..i + 1] <==> id in existing[..i] || id == existing[i];
        var tabId := existing[i];
        if tabId in accessTimes && accessTimes[tabId] != 0 {
          cleaned := cleaned[tabId := accessTimes[tabId]];
        }
      }
      assert existing[..|existing|] == existing;
      accessTimes := cleaned;
    }
  }

  /**
   * The two loops of CLOSE_DUPLICATE_TABS: group the ids by normalised url,
   * then collect all but the first id of each url.
   */
  method CloseDuplicateTabs(tabs: seq<Tab>, strip: string -> Option<string>) returns (tabsToClose: seq<int>, answer: HandlerResponse)
    ensures tabsToClose == AllButFirst(tabs, strip, UrlGroups(tabs, strip).keys)
    ensures answer == HandlerResponse(true, "", "", Some(|tabsToClose|), None)
  {
    var urlMap: OrderedMap<string, seq<int>> := EmptyMap();
    for i := 0 to |tabs|
      invariant urlMap == UrlGroups(tabs[..i], strip)
    {
      assert tabs[..i + 1][..i] == tabs[..i];
      var tab := tabs[i];
      if tab.url != "" && tab.id != 0 {
        var normalized := strip(tab.url);
        if normalized.Some? {
          var u := normalized.value;
          if u !in urlMap.values {
            urlMap := urlMap.Put(u, []);
          }
          urlMap := urlMap.Put(u, urlMap.values[u] + [tab.id]);
        }
      }
    }
    assert tabs[..|tabs|] == tabs;
    tabsToClose := [];
    var keys := urlMap.keys;
    for i := 0 to |keys|
      invariant tabsToClose == Surplus(urlMap, keys[..i])
    {
      assert keys[..i + 1][..i] == keys[..i];
      var ids := urlMap.values[keys[i]];
      if |ids| > 1 {
        tabsToClose := tabsToClose + ids[1..];
      }
    }
    assert keys[..|keys|] == keys;
    SurplusIsAllButFirst(tabs, strip, keys);
    answer := HandlerResponse(true, "", "", Some(|tabsToClose|), None);
  }
}
