/**
 * The command registry (src/commands/CommandRegistry.ts): commands by id and
 * by lower-cased alias, both in insertion order, and the three-tier lookup
 * that resolves a query to a command.
 */
module CommandRegistry {
  import opened Wrappers
  import opened Strings
  import opened Seqs
  import opened CommandTypes
  import opened BaseCommand
  import opened Commands

  /** The `commandsByAlias.set` calls `register` makes for a command, in alias order. */
  function AliasWrites(c: Command): (ops: seq<(string, Command)>)
    ensures |ops| == |c.info.aliases|
    ensures forall i :: 0 <= i < |ops| ==> ops[i] == (Lower(c.info.aliases[i]), c)
  {
    seq(|c.info.aliases|, i requires 0 <= i < |c.info.aliases| => (Lower(c.info.aliases[i]), c))
  }

  /** After `register(k)`, every alias of `k`, lower-cased, is bound to `k`; other keys keep their binding. */
  lemma AliasWritesBind(m: OrderedMap<string, Command>, c: Command, key: string)
    requires m.Valid()
    ensures (exists i :: 0 <= i < |c.info.aliases| && Lower(c.info.aliases[i]) == key) ==>
      PutAll(m, AliasWrites(c)).Get(key) == Some(c)
    ensures (forall i :: 0 <= i < |c.info.aliases| ==> Lower(c.info.aliases[i]) != key) ==>
      PutAll(m, AliasWrites(c)).Get(key) == m.Get(key)
  {
    PutAllGet(m, AliasWrites(c), key);
    var last := LastValue(AliasWrites(c), key);
    if last.Some? {
      var i :| 0 <= i < |AliasWrites(c)| && AliasWrites(c)[i] == (key, last.value);
    }
  }

  /** `commands.values()`: the registered commands in registration order. */
  function Registered(commands: OrderedMap<string, Command>): (r: seq<Command>)
    requires commands.Valid()
    ensures |r| == |commands.keys|
    ensures forall i :: 0 <= i < |r| ==> r[i] == commands.values[commands.keys[i]]
  {
    seq(|commands.keys|, i requires 0 <= i < |commands.keys| => commands.values[commands.keys[i]])
  }

  /** The first alias key equal to the normalised query. */
  function FirstEqual(keys: seq<string>, lower: string): (r: Option<nat>)
    ensures r.Some? ==> r.value < |keys| && keys[r.value] == lower
    ensures r.Some? ==> forall j :: 0 <= j < r.value ==> keys[j] != lower
    ensures r.None? <==> forall j :: 0 <= j < |keys| ==> keys[j] != lower
  {
    if keys == [] then None
    else if keys[0] == lower then Some(0)
    else match FirstEqual(keys[1..], lower)
      case None => None
      case Some(j) => Some(j + 1)
  }

  /** The alias keys the normalised query starts with. */
  function PrefixOf(lower: string): string -> bool
  {
    key => StartsWith(lower, key)
  }

  /** The first alias key the normalised query starts with. */
  function FirstPrefix(keys: seq<string>, lower: string): (r: Option<nat>)
    ensures r.Some? ==> r.value < |keys| && StartsWith(lower, keys[r.value])
    ensures r.Some? ==> forall j :: 0 <= j < r.value ==> !StartsWith(lower, keys[j])
    ensures r.None? <==> forall j :: 0 <= j < |keys| ==> !StartsWith(lower, keys[j])
  {
    FirstWhere(keys, PrefixOf(lower))
  }

  /**
   * The first command whose `matches(query)` holds, given the normalised
   * query `lower` (`matches` normalises the query the same way).
   */
  function FirstMatching(cmds: seq<Command>, lower: string): (r: Option<nat>)
    ensures r.Some? ==> r.value < |cmds| && AnyAliasAccepts(cmds[r.value].info.aliases, lower)
    ensures r.Some? ==> forall j :: 0 <= j < r.value ==> !AnyAliasAccepts(cmds[j].info.aliases, lower)
    ensures r.None? <==> forall j :: 0 <= j < |cmds| ==> !AnyAliasAccepts(cmds[j].info.aliases, lower)
  {
    if cmds == [] then None
    else if AnyAliasAccepts(cmds[0].info.aliases, lower) then Some(0)
    else match FirstMatching(cmds[1..], lower)
      case None => None
      case Some(j) => Some(j + 1)
  }

  /**
   * `findCommand(query)`: an alias equal to the normalised query, else the
   * first alias (in alias-map order) it starts with, else the first
   * command (in registration order) that matches it.
   */
  function Resolve(commands: OrderedMap<string, Command>, byAlias: OrderedMap<string, Command>, query: string): Option<Command>
    requires commands.Valid() && byAlias.Valid()
  {
    var lower := NormaliseQuery(query);
    var byAliasTier := AliasTier(byAlias, lower);
    if byAliasTier.Some? then byAliasTier else MatchTier(Registered(commands), lower)
  }

  /** The first two tiers: an equal alias, else the first prefixing alias. */
  function AliasTier(byAlias: OrderedMap<string, Command>, lower: string): Option<Command>
    requires byAlias.Valid()
  {
    match FirstEqual(byAlias.keys, lower)
    case Some(i) => Some(byAlias.values[byAlias.keys[i]])
    case None =>
      match FirstPrefix(byAlias.keys, lower)
      case Some(i) => Some(byAlias.values[byAlias.keys[i]])
      case None => None
  }

  /** A prefixing key found in `a` is still the first one in `a + b`. */
  lemma FirstPrefixAppend(a: seq<string>, b: seq<string>, lower: string)
    requires FirstPrefix(a, lower).Some?
    ensures FirstPrefix(a + b, lower) == FirstPrefix(a, lower)
  {
    FirstWhereAppend(a, b, PrefixOf(lower));
  }

  /** When no key of `a` prefixes the query, the first prefixing key of `a + b` is the first of `b`. */
  lemma FirstPrefixAfter(a: seq<string>, b: seq<string>, lower: string)
    requires FirstPrefix(a, lower).None?
    ensures FirstPrefix(a + b, lower) ==
      if FirstPrefix(b, lower).Some? then Some(|a| + FirstPrefix(b, lower).value) else None
  {
    var p := PrefixOf(lower);
    assert FirstWhere(a, p).None?;
    FirstWhereAfter(a, b, p);
    assert FirstPrefix(b, lower) == FirstWhere(b, p);
    assert FirstPrefix(a + b, lower) == FirstWhere(a + b, p);
  }

  /** The last tier: the first command that matches. */
  function MatchTier(cmds: seq<Command>, lower: string): Option<Command>
  {
    match FirstMatching(cmds, lower)
    case Some(i) => Some(cmds[i])
    case None => None
  }

  /** The alias tiers decide when they find something; otherwise the last tier does. */
  lemma ResolveTiers(commands: OrderedMap<string, Command>, byAlias: OrderedMap<string, Command>, query: string)
    requires commands.Valid() && byAlias.Valid()
    ensures AliasTier(byAlias, NormaliseQuery(query)).Some? ==>
      Resolve(commands, byAlias, query) == AliasTier(byAlias, NormaliseQuery(query))
    ensures AliasTier(byAlias, NormaliseQuery(query)).None? ==>
      Resolve(commands, byAlias, query) == MatchTier(Registered(commands), NormaliseQuery(query))
  {
  }

  /** An alias equal to the query wins the alias tiers. */
  lemma AliasTierExact(byAlias: OrderedMap<string, Command>, lower: string)
    requires byAlias.Valid() && lower in byAlias.values
    ensures AliasTier(byAlias, lower) == Some(byAlias.values[lower])
  {
    assert lower in byAlias.keys;
  }

  /** The alias tiers find nothing exactly when no alias is a prefix of the query. */
  lemma AliasTierNone(byAlias: OrderedMap<string, Command>, lower: string)
    requires byAlias.Valid()
    ensures AliasTier(byAlias, lower).None? <==> forall a :: a in byAlias.keys ==> !StartsWith(lower, a)
  {
    if FirstEqual(byAlias.keys, lower).Some? {
      var i := FirstEqual(byAlias.keys, lower).value;
      assert lower[..|byAlias.keys[i]|] == byAlias.keys[i];
      assert StartsWith(lower, byAlias.keys[i]) && byAlias.keys[i] in byAlias.keys;
    } else if FirstPrefix(byAlias.keys, lower).Some? {
      var i := FirstPrefix(byAlias.keys, lower).value;
      assert byAlias.keys[i] in byAlias.keys;
    }
  }

  /** The last tier finds nothing exactly when no command matches. */
  lemma MatchTierNone(cmds: seq<Command>, lower: string)
    ensures MatchTier(cmds, lower).None? <==> forall k :: k in cmds ==> !AnyAliasAccepts(k.info.aliases, lower)
  {
    if MatchTier(cmds, lower).Some? {
      var i := FirstMatching(cmds, lower).value;
      assert cmds[i] in cmds;
    }
  }

  /** An alias equal to the normalised query wins, whatever else matches. */
  lemma ResolveExact(commands: OrderedMap<string, Command>, byAlias: OrderedMap<string, Command>, query: string)
    requires commands.Valid() && byAlias.Valid()
    requires NormaliseQuery(query) in byAlias.values
    ensures Resolve(commands, byAlias, query) == Some(byAlias.values[NormaliseQuery(query)])
  {
    ResolveTiers(commands, byAlias, query);
    AliasTierExact(byAlias, NormaliseQuery(query));
  }

  /**
   * Nothing resolves exactly when no alias is a prefix of the normalised
   * query and no registered command matches it.
   */
  lemma ResolveNone(commands: OrderedMap<string, Command>, byAlias: OrderedMap<string, Command>, query: string)
    requires commands.Valid() && byAlias.Valid()
    ensures Resolve(commands, byAlias, query).None? <==>
      (forall a :: a in byAlias.keys ==> !StartsWith(NormaliseQuery(query), a))
      && (forall k :: k in Registered(commands) ==> !Matches(k.info, query))
  {
    ResolveTiers(commands, byAlias, query);
    AliasTierNone(byAlias, NormaliseQuery(query));
    MatchTierNone(Registered(commands), NormaliseQuery(query));
  }

  /** No alias is a prefix of the empty string unless it is empty itself. */
  lemma AliasTierEmpty(byAlias: OrderedMap<string, Command>)
    requires byAlias.Valid()
    requires forall a :: a in byAlias.keys ==> a != []
    ensures AliasTier(byAlias, []).None?
  {
    AliasTierNone(byAlias, []);
  }

  /** Every command with an alias matches the empty query, so the first one wins the last tier. */
  lemma MatchTierEmptyQuery(cmds: seq<Command>)
    requires cmds != [] && cmds[0].info.aliases != []
    ensures MatchTier(cmds, []) == Some(cmds[0])
  {
    ContainsEmpty(Lower(cmds[0].info.aliases[0]));
    assert AliasAccepts(cmds[0].info.aliases[0], []);
  }

  /**
   * With no empty alias, a blank query gets past the alias tiers and, since
   * every command matches it, resolves to the first registered command.
   */
  lemma ResolveBlank(commands: OrderedMap<string, Command>, byAlias: OrderedMap<string, Command>, query: string)
    requires commands.Valid() && byAlias.Valid()
    requires commands.keys != [] && Registered(commands)[0].info.aliases != []
    requires forall a :: a in byAlias.keys ==> a != []
    requires IsBlank(query)
    ensures Resolve(commands, byAlias, query) == Some(Registered(commands)[0])
  {
    BlankNormalisesEmpty(query);
    ResolveTiers(commands, byAlias, query);
    AliasTierEmpty(byAlias);
    MatchTierEmptyQuery(Registered(commands));
  }

  /** The suggestions of each command in turn, concatenated. */
  function AllSuggestions(cmds: seq<Command>, query: string, env: Env): (r: seq<Item>)
    ensures |r| <= |cmds|
    decreases |cmds|
  {
    if cmds == [] then []
    else AllSuggestions(cmds[..|cmds| - 1], query, env) + Commands.Suggestions(cmds[|cmds| - 1], query, env)
  }

  /** `item` is the suggestion row command `k` offers for the query. */
  predicate SuggestionOf(k: Command, query: string, env: Env, item: Item)
  {
    Matches(k.info, query) && item == ActionItem(SuggestionId(k.info), DisplayTitle(k.kind, query, env), NoEffect)
  }

  /**
   * An item is suggested exactly when it is the suggestion of a registered
   * command that matches the query.
   */
  lemma AllSuggestionsMembers(cmds: seq<Command>, query: string, env: Env, item: Item)
    ensures item in AllSuggestions(cmds, query, env) <==> exists k :: k in cmds && SuggestionOf(k, query, env, item)
  {
    if item in AllSuggestions(cmds, query, env) {
      AllSuggestionsSound(cmds, query, env, item);
    }
    if exists k :: k in cmds && SuggestionOf(k, query, env, item) {
      var k :| k in cmds && SuggestionOf(k, query, env, item);
      AllSuggestionsComplete(cmds, query, env, k, item);
    }
  }

  /** Every suggested item is the suggestion of one of the commands. */
  lemma {:induction false} AllSuggestionsSound(cmds: seq<Command>, query: string, env: Env, item: Item)
    requires item in AllSuggestions(cmds, query, env)
    ensures exists k :: k in cmds && SuggestionOf(k, query, env, item)
    decreases |cmds|
  {
    if cmds != [] {
      var init := cmds[..|cmds| - 1];
      var last := cmds[|cmds| - 1];
      if item in AllSuggestions(init, query, env) {
        AllSuggestionsSound(init, query, env, item);
        var k :| k in init && SuggestionOf(k, query, env, item);
        assert k in cmds;
      } else {
        assert item in Commands.Suggestions(last, query, env);
        assert SuggestionOf(last, query, env, item);
      }
    }
  }

  /** The suggestion of every matching command is among the suggested items. */
  lemma {:induction false} AllSuggestionsComplete(cmds: seq<Command>, query: string, env: Env, k: Command, item: Item)
    requires k in cmds && SuggestionOf(k, query, env, item)
    ensures item in AllSuggestions(cmds, query, env)
    decreases |cmds|
  {
    var init := cmds[..|cmds| - 1];
    var last := cmds[|cmds| - 1];
    if k == last {
      assert Commands.Suggestions(last, query, env) == [item];
    } else {
      assert cmds == init + [last];
      assert k in init;
      AllSuggestionsComplete(init, query, env, k, item);
    }
  }

  /** `parseQuery(query)`: the resolved command and the argument it extracts. */
  function ParsedQuery(commands: OrderedMap<string, Command>, byAlias: OrderedMap<string, Command>, query: string): (r: (Option<Command>, string))
    requires commands.Valid() && byAlias.Valid()
    ensures r.0 == Resolve(commands, byAlias, query)
    ensures r.0.None? ==> r.1 == query
  {
    match Resolve(commands, byAlias, query)
    case None => (None, query)
    case Some(c) => (Some(c), ExtractArgument(c.info, query))
  }

  /** `error instanceof Error ? error.message : 'Unknown error'`. */
  function ExceptionMessage(exception: Option<string>): string
  {
    match exception
    case Some(m) => m
    case None => "Unknown error"
  }

  /** The first loop of `findCommand`: an alias equal to the normalised query. */
  method ScanEqual(keys: seq<string>, lower: string) returns (r: Option<nat>)
    ensures r == FirstEqual(keys, lower)
  {
    for i := 0 to |keys|
      invariant forall j :: 0 <= j < i ==> keys[j] != lower
    {
      if lower == keys[i] {
        return Some(i);
      }
    }
    return None;
  }

  /** The second loop of `findCommand`: an alias the normalised query starts with. */
  method ScanPrefix(keys: seq<string>, lower: string) returns (r: Option<nat>)
    ensures r == FirstPrefix(keys, lower)
  {
    for i := 0 to |keys|
      invariant forall j :: 0 <= j < i ==> !StartsWith(lower, keys[j])
    {
      if StartsWith(lower, keys[i]) {
        return Some(i);
      }
    }
    return None;
  }

  /** The third loop of `findCommand`: a command that matches the query. */
  method ScanMatching(cmds: seq<Command>, query: string) returns (r: Option<nat>)
    ensures r == FirstMatching(cmds, NormaliseQuery(query))
  {
    ghost var lower := NormaliseQuery(query);
    assert cmds[0..] == cmds;
    for i := 0 to |cmds|
      invariant FirstMatching(cmds, lower) == Shifted(FirstMatching(cmds[i..], lower), i)
    {
      assert cmds[i..][1..] == cmds[i + 1..];
      if Matches(cmds[i].info, query) {
        return Some(i);
      }
    }
    assert cmds[|cmds|..] == [];
    return None;
  }

  /** An index found in a suffix, as an index of the whole sequence. */
  function Shifted(found: Option<nat>, offset: nat): (r: Option<nat>)
    ensures r.None? <==> found.None?
    ensures found.Some? ==> r.value == found.value + offset
  {
    match found
    case None => None
    case Some(k) => Some(k + offset)
  }

  class Registry {
    /** `commands`: id to command, in registration order. */
    var commands: OrderedMap<string, Command>
    /** `commandsByAlias`: lower-cased alias to command, in first-registration order. */
    var byAlias: OrderedMap<string, Command>

    ghost predicate Valid()
      reads this
    {
      commands.Valid() && byAlias.Valid()
    }

    constructor()
      ensures Valid()
      ensures commands.keys == [] && byAlias.keys == []
    {
      commands := EmptyMap();
      byAlias := EmptyMap();
    }

    /**
     * `register(command)`: binds the id, then each lower-cased alias in
     * turn; a key registered before keeps its place and takes the new command.
     */
    method Register(c: Command)
      requires Valid()
      modifies this
      ensures Valid()
      ensures commands == old(commands).Put(c.info.id, c)
      ensures byAlias == PutAll(old(byAlias), AliasWrites(c))
    {
      commands := commands.Put(c.info.id, c);
      var aliases := c.info.aliases;
      var writes := AliasWrites(c);
      for i := 0 to |aliases|
        invariant commands == old(commands).Put(c.info.id, c) && byAlias.Valid()
        invariant byAlias == PutAll(old(byAlias), writes[..i])
      {
        assert writes[..i + 1][..i] == writes[..i];
        byAlias := byAlias.Put(Lower(aliases[i]), c);
      }
      assert writes[..|aliases|] == writes;
    }

    /** `getCommand(id)`. */
    function GetCommand(id: string): (r: Option<Command>)
      requires Valid()
      reads this
      ensures r.Some? <==> id in commands.keys
      ensures r.Some? ==> r.value == commands.values[id]
    {
      commands.Get(id)
    }

    /** `findCommand(query)`: three first-match loops, one per tier. */
    method FindCommand(query: string) returns (r: Option<Command>)
      requires Valid()
      ensures r == Resolve(commands, byAlias, query)
    {
      var lower := NormaliseQuery(query);
      ResolveTiers(commands, byAlias, query);
      var i := ScanEqual(byAlias.keys, lower);
      if i.Some? {
        return Some(byAlias.values[byAlias.keys[i.value]]);
      }
      i := ScanPrefix(byAlias.keys, lower);
      if i.Some? {
        return Some(byAlias.values[byAlias.keys[i.value]]);
      }
      var cmds := Registered(commands);
      i := ScanMatching(cmds, query);
      if i.Some? {
        return Some(cmds[i.value]);
      }
      return None;
    }

    /**
     * `getCommandSuggestions(query)`: nothing for a blank query; otherwise
     * each registered command's suggestions, in registration order.
     */
    method GetCommandSuggestions(query: string, env: Env) returns (r: seq<Item>)
      requires Valid()
      ensures IsBlank(query) ==> r == []
      ensures !IsBlank(query) ==> r == AllSuggestions(Registered(commands), query, env)
      ensures |r| <= |commands.keys|
    {
      if IsBlank(query) {
        return [];
      }
      var cmds := Registered(commands);
      r := [];
      for i := 0 to |cmds|
        invariant r == AllSuggestions(cmds[..i], query, env)
      {
        assert cmds[..i + 1][..i] == cmds[..i];
        r := r + Commands.Suggestions(cmds[i], query, env);
      }
      assert cmds[..|cmds|] == cmds;
    }

    /**
     * `executeCommand(id, context)`: an unknown id fails without running
     * anything; otherwise the command's result is passed on unchanged and
     * an exception it raises becomes a failure. The third component is what
     * the command fetched again through the context's callbacks.
     */
    function ExecuteCommand(id: string, context: ExecContext, reply: Reply, env: Env): (r: (Request, ExecResult, Refresh))
      requires Valid()
      reads this
      ensures id !in commands.keys ==> r == (NoRequest, Failure("Command not found: " + id), NoRefresh)
      ensures id in commands.keys ==>
        var e := ExecuteSpec(commands.values[id].kind, context, reply, env);
        && r.0 == e.sent
        && (e.outcome.Done? ==> r.1 == e.outcome.result)
        && (e.outcome.Raised? ==> r.1 == Failure(ExceptionMessage(e.outcome.exception)))
        && r.2 == e.refresh
    {
      match GetCommand(id)
      case None => (NoRequest, Failure("Command not found: " + id), NoRefresh)
      case Some(c) =>
        var e := ExecuteSpec(c.kind, context, reply, env);
        match e.outcome
        case Done(result) => (e.sent, result, e.refresh)
        case Raised(exception) => (e.sent, Failure(ExceptionMessage(exception)), e.refresh)
    }

    /** `getCommandSearchResults(id, context)`: nothing for an unknown id. */
    function GetCommandSearchResults(id: string, context: CommandContext, env: Env): (r: seq<Item>)
      requires Valid()
      reads this
      ensures id !in commands.keys ==> r == []
      ensures id in commands.keys ==> r == SearchResults(commands.values[id].kind, context, env)
    {
      match GetCommand(id)
      case None => []
      case Some(c) => SearchResults(c.kind, context, env)
    }

    /** `parseQuery(query)`, through `findCommand`. */
    method ParseQuery(query: string) returns (command: Option<Command>, argument: string)
      requires Valid()
      ensures (command, argument) == ParsedQuery(commands, byAlias, query)
    {
      command := FindCommand(query);
      if command.None? {
        return None, query;
      }
      argument := ExtractArgument(command.value.info, query);
    }
  }
}
