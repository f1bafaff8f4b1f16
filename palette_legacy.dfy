/**
 * The earlier palette component (src/components/CommandPalette.tsx): the
 * query is classified as a Google search, a URL to open, a blank query that
 * lists every tab, or a fuzzy tab search; clicking a row acts on it and
 * closes the palette. The fuzzy matcher (Fuse) is a parameter.
 */
module PaletteLegacy {
  import opened Wrappers
  import opened Strings
  import opened CommandTypes
  import opened PaletteState
  import opened PaletteNew

  const GoogleSearchItemId: string := "google-search"
  const OpenUrlItemId: string := "open-url"

  /** `query.replace(/^(g|google)\s+/, '')`: drops a leading engine word and the whitespace after it. */
  function StripEngineWord(query: string): (r: string)
    ensures |r| <= |query|
    ensures r == query[|query| - |r|..]
  {
    if |query| > 1 && query[0] == 'g' && IsWhitespace(query[1]) then TrimStart(query[1..])
    else if |query| > 6 && query[..6] == "google" && IsWhitespace(query[6]) then TrimStart(query[6..])
    else query
  }

  /** Every character of `s` is whitespace (an empty `s` included). */
  predicate AllWhitespace(s: string)
  {
    forall i :: 0 <= i < |s| ==> IsWhitespace(s[i])
  }

  /** What `^(g|google)\s+` can match: "g" or "google", then at least one whitespace character. */
  predicate IsEnginePrefix(p: string)
  {
    || (|p| > 1 && p[0] == 'g' && AllWhitespace(p[1..]))
    || (|p| > 6 && p[..6] == "google" && AllWhitespace(p[6..]))
  }

  /**
   * The query is left alone exactly when it has no engine-word prefix;
   * otherwise what is dropped is such a prefix and what is left does not
   * start with whitespace, so the whole whitespace run goes too.
   */
  lemma StripEngineWordMeaning(query: string)
    ensures StripEngineWord(query) != query <==> exists k :: 0 < k <= |query| && IsEnginePrefix(query[..k])
    ensures StripEngineWord(query) != query ==>
      && IsEnginePrefix(query[..|query| - |StripEngineWord(query)|])
      && (StripEngineWord(query) == [] || !IsWhitespace(StripEngineWord(query)[0]))
  {
    var r := StripEngineWord(query);
    if |query| > 1 && query[0] == 'g' && IsWhitespace(query[1]) {
      TrimmedAfter(query, 1);
      assert query[..|query| - |r|][..1] == [query[0]];
    } else if |query| > 6 && query[..6] == "google" && IsWhitespace(query[6]) {
      TrimmedAfter(query, 6);
      assert query[..|query| - |r|][..6] == query[..6];
    } else {
      NoEnginePrefix(query);
    }
  }

  /**
   * When the word ends at `n` and whitespace follows, trimming the rest
   * drops a non-empty whitespace run.
   */
  lemma TrimmedAfter(query: string, n: nat)
    requires n < |query| && IsWhitespace(query[n])
    ensures var r := TrimStart(query[n..]);
      && |r| < |query| - n
      && query[..|query| - |r|][..n] == query[..n]
      && AllWhitespace(query[..|query| - |r|][n..])
  {
    var t := query[n..];
    var r := TrimStart(t);
    assert r == TrimStart(t[1..]);
    TrimmedRun(query, n, |query| - |r|);
  }

  /** The characters of `query` between `n` and `m` that trimming from `n` drops are whitespace. */
  lemma TrimmedRun(query: string, n: nat, m: nat)
    requires n <= m <= |query| && m == |query| - |TrimStart(query[n..])|
    ensures AllWhitespace(query[..m][n..])
  {
    var t := query[n..];
    var d := query[..m][n..];
    assert |t| - |TrimStart(t)| == |d|;
    forall i | 0 <= i < |d|
      ensures IsWhitespace(d[i])
    {
      assert d[i] == t[i];
    }
  }

  /** A query whose start is neither "g" nor "google" followed by whitespace has no engine-word prefix. */
  lemma NoEnginePrefix(query: string)
    requires !(|query| > 1 && query[0] == 'g' && IsWhitespace(query[1]))
    requires !(|query| > 6 && query[..6] == "google" && IsWhitespace(query[6]))
    ensures forall k :: 0 < k <= |query| ==> !IsEnginePrefix(query[..k])
  {
    forall k | 0 < k <= |query|
      ensures !IsEnginePrefix(query[..k])
    {
      var p := query[..k];
      if |p| > 1 {
        assert p[0] == query[0] && p[1..][0] == query[1];
      }
      if |p| > 6 {
        assert p[..6] == query[..6] && p[6..][0] == query[6];
      }
    }
  }

  /** After "g " and a term that does not start with whitespace, the term is what is left. */
  lemma StripShortEngineWord(term: string)
    requires term == [] || !IsWhitespace(term[0])
    ensures StripEngineWord("g " + term) == term
  {
    var q := "g " + term;
    assert q[0] == 'g' && IsWhitespace(q[1]);
    assert q[1..] == " " + term;
    TrimStartAfterSpace(term);
  }

  /** After "google " and a term that does not start with whitespace, the term is what is left. */
  lemma StripLongEngineWord(term: string)
    requires term == [] || !IsWhitespace(term[0])
    ensures StripEngineWord("google " + term) == term
  {
    var q := "google " + term;
    assert q[1] == 'o' && q[..6] == "google" && IsWhitespace(q[6]);
    assert q[6..] == " " + term;
    TrimStartAfterSpace(term);
  }

  /** One space in front of a term that does not start with whitespace is all that is trimmed. */
  lemma TrimStartAfterSpace(term: string)
    requires term == [] || !IsWhitespace(term[0])
    ensures TrimStart(" " + term) == term
  {
    assert (" " + term)[1..] == term;
  }

  /** The one row of a Google search: opens the results for the term. */
  function GoogleRow(term: string, env: Env): Item
  {
    ActionItem(GoogleSearchItemId, "Google \"" + term + "\"", OpenUrlEffect(GoogleSearchPrefix + env.encode(term)))
  }

  /** The one row for a URL-looking query: opens it over http. */
  function UrlRow(query: string): Item
  {
    ActionItem(OpenUrlItemId, "Open URL: " + query, OpenUrlEffect("http://" + query))
  }

  /** The query asks for a Google search: it starts, exactly, with "g " or "google ". */
  predicate IsGoogleQuery(query: string)
  {
    StartsWith(query, "g ") || StartsWith(query, "google ")
  }

  /** The query looks like a URL: it has a dot and no space. */
  predicate IsUrlQuery(query: string)
  {
    Contains(query, ".") && !Contains(query, " ")
  }

  /**
   * `searchResults`: a Google row, else a URL row, else every tab for an
   * empty query, else the tabs the fuzzy matcher returns, in its order.
   */
  function LegacyResults(query: string, tabs: seq<Tab>, fuzzy: (seq<Tab>, string) -> seq<Tab>, env: Env): (r: seq<Item>)
    ensures IsGoogleQuery(query) ==> r == [GoogleRow(StripEngineWord(query), env)]
    ensures !IsGoogleQuery(query) && IsUrlQuery(query) ==> r == [UrlRow(query)]
    ensures query == [] ==> r == TabItems(tabs)
    ensures !IsGoogleQuery(query) && !IsUrlQuery(query) && query != [] ==> r == TabItems(fuzzy(tabs, query))
  {
    if IsGoogleQuery(query) then [GoogleRow(StripEngineWord(query), env)]
    else if IsUrlQuery(query) then [UrlRow(query)]
    else if query == [] then TabItems(tabs)
    else TabItems(fuzzy(tabs, query))
  }

  /** A Google query is never a URL query: it holds a space. */
  lemma GoogleExcludesUrl(query: string)
    requires IsGoogleQuery(query)
    ensures !IsUrlQuery(query)
  {
    if StartsWith(query, "g ") {
      assert OccursAt(query, " ", 1);
    } else {
      assert OccursAt(query, " ", 6);
    }
  }

  /** The Google check is case-sensitive: "G " or "Google " followed by text is not a Google search. */
  lemma GoogleIsCaseSensitive(term: string)
    ensures !IsGoogleQuery("G " + term) && !IsGoogleQuery("Google " + term)
  {
    assert ("G " + term)[0] == 'G';
    assert ("Google " + term)[0] == 'G';
  }

  /** Only the empty query lists every tab: a query of spaces goes to the fuzzy matcher. */
  lemma BlankIsFuzzy(tabs: seq<Tab>, fuzzy: (seq<Tab>, string) -> seq<Tab>, env: Env)
    ensures LegacyResults(" ", tabs, fuzzy, env) == TabItems(fuzzy(tabs, " "))
  {
    assert !StartsWith(" ", "g ") && !StartsWith(" ", "google ");
    assert OccursAt(" ", " ", 0);
  }

  /** `handleItemClick`: a tab row switches to the tab, an action row runs its action. */
  function Click(item: Item): (m: Message)
    requires item.TabItem? || item.ActionItem?
    ensures m.SwitchToTab? <==> item.TabItem?
    ensures item.TabItem? ==> m == SwitchToTab(item.tab.id)
  {
    if item.TabItem? then SwitchToTab(item.tab.id) else RunEffect(item.effect)
  }

  /** Clicking a Google row opens the search for the stripped term. */
  lemma ClickGoogleRow(query: string, tabs: seq<Tab>, fuzzy: (seq<Tab>, string) -> seq<Tab>, env: Env)
    requires IsGoogleQuery(query)
    ensures Click(LegacyResults(query, tabs, fuzzy, env)[0]) == Background(OpenUrl(GoogleSearchPrefix + env.encode(StripEngineWord(query))))
  {
  }

  /** The component's state. */
  class LegacyPalette {
    var tabs: seq<Tab>
    var query: string

    constructor()
      ensures tabs == [] && query == ""
    {
      tabs := [];
      query := "";
    }

    function Results(fuzzy: (seq<Tab>, string) -> seq<Tab>, env: Env): seq<Item>
      reads this
    {
      LegacyResults(query, tabs, fuzzy, env)
    }

    method SetQuery(q: string)
      modifies this
      ensures query == q && tabs == old(tabs)
    {
      query := q;
    }

    /**
     * `fetchTabs` once GET_TABS is answered: a runtime error keeps the tabs;
     * otherwise the reply replaces them, and no reply empties them.
     */
    method FetchTabs(lastError: bool, response: Option<seq<Tab>>)
      modifies this
      ensures lastError ==> tabs == old(tabs)
      ensures !lastError ==> tabs == response.GetOr([])
      ensures query == old(query)
    {
      if lastError {
        return;
      }
      tabs := response.GetOr([]);
    }

    /** `handleItemClick`: acts on the row, then always closes the palette. */
    method HandleItemClick(item: Item) returns (sent: Message, closed: bool)
      requires item.TabItem? || item.ActionItem?
      ensures sent == Click(item) && closed
    {
      if item.TabItem? {
        sent := SwitchToTab(item.tab.id);
      } else {
        sent := RunEffect(item.effect);
      }
      closed := true;
    }

    /**
     * `handleCloseTab`: asks for the tab to be closed and leaves the palette
     * open; `fetchTabs` is the reply callback, so the tabs are fetched again
     * whatever the reply.
     */
    method HandleCloseTab(tabId: int) returns (sent: Message, closed: bool, refresh: Refresh)
      ensures sent == CloseTab(tabId) && !closed
      ensures refresh == TabsRefresh
    {
      sent := CloseTab(tabId);
      closed := false;
      refresh := TabsRefresh;
    }
  }
}
