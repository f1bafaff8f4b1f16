/**
 * `search` (src/commands/SearchCommand.ts): web search with one of eight
 * engines, chosen by a leading engine word or defaulting to Google.
 */
module SearchCommand {
  import opened Wrappers
  import opened Strings
  import opened CommandTypes
  import opened BaseCommand
  import opened Seqs

  const Info: CommandInfo := CommandInfo("search", "Search", ["search", "s", "find"], SingleExecution, false)

  /** Every alias is declared in lower case. */
  lemma AliasesLowerCase()
    ensures forall i :: 0 <= i < |Info.aliases| ==> IsLower(Info.aliases[i])
  {
  }

  /** The id has no '-', so the suggestion suffix is the only one in a suggestion id. */
  lemma IdHasNoDash()
    ensures '-' !in Info.id
  {
  }

  datatype Engine = Engine(name: string, url: string, shortcut: string)

  /** `SEARCH_ENGINES`, in table order; Google comes first. */
  const Engines: seq<Engine> := [
    Engine("Google", "https://www.google.com/search?q=", "g"),
    Engine("DuckDuckGo", "https://duckduckgo.com/?q=", "ddg"),
    Engine("Bing", "https://www.bing.com/search?q=", "b"),
    Engine("YouTube", "https://www.youtube.com/results?search_query=", "yt"),
    Engine("GitHub", "https://github.com/search?q=", "gh"),
    Engine("Stack Overflow", "https://stackoverflow.com/search?q=", "so"),
    Engine("Wikipedia", "https://en.wikipedia.org/wiki/Special:Search?search=", "wiki"),
    Engine("Reddit", "https://www.reddit.com/search/?q=", "r")
  ]

  function DisplayTitle(query: string): string
  {
    var argument := ExtractArgument(Info, query);
    if !IsBlank(argument) then "Search: " + argument else "Search"
  }

  /** The engine's name or shortcut contains the lower-cased query. */
  predicate EngineMatches(engine: Engine, lowerQuery: string)
  {
    Contains(Lower(engine.name), lowerQuery) || Contains(Lower(engine.shortcut), lowerQuery)
  }

  function MatchingEngines(engines: seq<Engine>, lowerQuery: string): (r: seq<Engine>)
    ensures forall e :: e in r <==> e in engines && EngineMatches(e, lowerQuery)
    ensures |r| <= |engines|
    ensures IsSubseq(r, engines)
  {
    if engines == [] then []
    else if EngineMatches(engines[0], lowerQuery) then [engines[0]] + MatchingEngines(engines[1..], lowerQuery)
    else MatchingEngines(engines[1..], lowerQuery)
  }

  /** "Search with <name>", one per engine, in table order. */
  function EngineRows(engines: seq<Engine>): (r: seq<Item>)
    ensures |r| == |engines|
    ensures forall i :: 0 <= i < |engines| ==> r[i] == ActionItem("search-" + engines[i].shortcut, "Search with " + engines[i].name, NoEffect)
  {
    seq(|engines|, i requires 0 <= i < |engines| => ActionItem("search-" + engines[i].shortcut, "Search with " + engines[i].name, NoEffect))
  }

  /** "Search "<argument>" on <name>", one per engine, in table order. */
  function QueryRows(engines: seq<Engine>, argument: string): (r: seq<Item>)
    ensures |r| == |engines|
    ensures forall i :: 0 <= i < |engines| ==>
      r[i] == ActionItem("search-" + engines[i].shortcut + "-" + argument, "Search \"" + argument + "\" on " + engines[i].name, NoEffect)
  {
    seq(|engines|, i requires 0 <= i < |engines| =>
      ActionItem("search-" + engines[i].shortcut + "-" + argument, "Search \"" + argument + "\" on " + engines[i].name, NoEffect))
  }

  /**
   * `getSearchResults`: all eight engines for a blank argument; otherwise
   * the engines matching it, or a single Google row when none does. The
   * list is never empty.
   */
  function SearchResults(context: CommandContext): (r: seq<Item>)
    ensures r != []
    ensures IsBlank(ExtractArgument(Info, context.query)) ==> |r| == 8 && r == EngineRows(Engines)
    ensures !IsBlank(ExtractArgument(Info, context.query)) ==>
      var argument := ExtractArgument(Info, context.query);
      var matching := MatchingEngines(Engines, Lower(argument));
      && (matching != [] ==> r == QueryRows(matching, argument))
      && (matching == [] ==> r == [ActionItem("search-google-" + argument, "Search \"" + argument + "\" on Google", NoEffect)])
  {
    var argument := ExtractArgument(Info, context.query);
    if IsBlank(argument) then EngineRows(Engines)
    else
      var matching := MatchingEngines(Engines, Lower(argument));
      if |matching| > 0 then QueryRows(matching, argument)
      else [ActionItem("search-google-" + argument, "Search \"" + argument + "\" on Google", NoEffect)]
  }

  /** The word names the engine, by shortcut or by name, ignoring case. */
  predicate Names(engine: Engine, lowerWord: string)
  {
    Lower(engine.shortcut) == lowerWord || Lower(engine.name) == lowerWord
  }

  /** `SEARCH_ENGINES.find(...)`: the first engine the word names. */
  function NamedEngine(engines: seq<Engine>, lowerWord: string): (r: Option<Engine>)
    ensures r.Some? ==> r.value in engines && Names(r.value, lowerWord)
    ensures r.None? ==> forall e :: e in engines ==> !Names(e, lowerWord)
  {
    if engines == [] then None
    else if Names(engines[0], lowerWord) then Some(engines[0])
    else NamedEngine(engines[1..], lowerWord)
  }

  /** The engine and the query text `execute` chooses for a non-blank argument. */
  function Choice(argument: string): (Engine, string)
  {
    var parts := Split(argument, ' ');
    var specified := NamedEngine(Engines, Lower(parts[0]));
    if specified.Some? && |parts| > 1 then (specified.value, Join(parts[1..], ' '))
    else (Engines[0], argument)
  }

  /**
   * `execute`: a blank argument is rejected; otherwise the chosen engine's
   * url followed by the encoded query is opened.
   */
  function ExecuteSpec(context: ExecContext, reply: Reply, env: Env): (e: Execution)
    ensures IsBlank(ExtractArgument(Info, context.query)) <==> e == Rejected("Please provide a search query")
    ensures !IsBlank(ExtractArgument(Info, context.query)) ==>
      var (engine, q) := Choice(ExtractArgument(Info, context.query));
      && e.sent == OpenUrl(engine.url + env.encode(q))
      && (reply.Answer? ==> e.outcome == Done(Closing("Searching \"" + q + "\" on " + engine.name)))
      && (reply.LastError? ==> e.outcome == Done(Failure(reply.lastError)))
      && (reply.Threw? ==> e.outcome == Raised(reply.thrown))
    ensures e.refresh == if e.sent != NoRequest && reply.Answer? then TabsRefresh else NoRefresh
  {
    var argument := ExtractArgument(Info, context.query);
    if IsBlank(argument) then Rejected("Please provide a search query")
    else
      var (engine, q) := Choice(argument);
      Settle(OpenUrl(engine.url + env.encode(q)), reply, _ => Closing("Searching \"" + q + "\" on " + engine.name), TabsRefresh)
  }

  /**
   * A first word that names an engine, followed by a space, selects that
   * engine and leaves the rest of the argument as the query.
   */
  lemma ChoiceNamedEngine(word: string, rest: string)
    requires ' ' !in word && NamedEngine(Engines, Lower(word)).Some?
    ensures Choice(word + " " + rest) == (NamedEngine(Engines, Lower(word)).value, rest)
  {
    var argument := word + " " + rest;
    assert argument[|word|] == ' ';
    assert argument[..|word|] == word;
    assert argument[|word| + 1..] == rest;
    IndexOfCharAt(argument, ' ', |word|);
    ChoiceAtSpace(argument, |word|);
  }

  /** At the first space, an engine word in front selects that engine for the text after the space. */
  lemma ChoiceAtSpace(argument: string, i: nat)
    requires IndexOfChar(argument, ' ') == Some(i)
    requires NamedEngine(Engines, Lower(argument[..i])).Some?
    ensures Choice(argument) == (NamedEngine(Engines, Lower(argument[..i])).value, argument[i + 1..])
  {
    SplitFirst(argument, ' ');
  }

  /** Without a space, or without an engine word in front, Google gets the whole argument. */
  lemma ChoiceDefault(argument: string)
    requires ' ' !in argument || NamedEngine(Engines, Lower(Split(argument, ' ')[0])).None?
    ensures Choice(argument) == (Engines[0], argument)
  {
    SplitFirst(argument, ' ');
  }
}
