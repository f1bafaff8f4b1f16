/**
 * The behaviour every command inherits (src/commands/BaseCommand.ts):
 * alias matching, argument extraction, the default display title and the
 * single suggestion a matching command offers.
 */
module BaseCommand {
  import opened Wrappers
  import opened Strings
  import opened CommandTypes

  /** The constant part of a command: its id, name, aliases and mode. */
  datatype CommandInfo = CommandInfo(id: string, name: string, aliases: seq<string>, mode: Mode, multiSelect: bool)

  /** The query as the alias tests see it: lower-cased, then trimmed. */
  function NormaliseQuery(query: string): string
  {
    Trim(Lower(query))
  }

  /** One alias accepts the normalised query as a prefix or as a fragment. */
  predicate AliasAccepts(alias: string, lowerQuery: string)
  {
    StartsWith(lowerQuery, Lower(alias)) || Contains(Lower(alias), lowerQuery)
  }

  /** `aliases.some(...)`. */
  function AnyAliasAccepts(aliases: seq<string>, lowerQuery: string): bool
  {
    if aliases == [] then false
    else AliasAccepts(aliases[0], lowerQuery) || AnyAliasAccepts(aliases[1..], lowerQuery)
  }

  /**
   * `matches(query)`: true exactly when some alias, lower-cased, is a prefix of
   * the normalised query or contains it.
   */
  predicate Matches(info: CommandInfo, query: string)
  {
    AnyAliasAccepts(info.aliases, NormaliseQuery(query))
  }

  lemma {:induction false} AnyAliasAcceptsIff(aliases: seq<string>, lowerQuery: string)
    ensures AnyAliasAccepts(aliases, lowerQuery) <==> exists k :: 0 <= k < |aliases| && AliasAccepts(aliases[k], lowerQuery)
  {
    if aliases != [] {
      AnyAliasAcceptsIff(aliases[1..], lowerQuery);
      if AnyAliasAccepts(aliases[1..], lowerQuery) {
        var k :| 0 <= k < |aliases[1..]| && AliasAccepts(aliases[1..][k], lowerQuery);
        assert AliasAccepts(aliases[k + 1], lowerQuery);
      }
      if exists k :: 0 <= k < |aliases| && AliasAccepts(aliases[k], lowerQuery) {
        var k :| 0 <= k < |aliases| && AliasAccepts(aliases[k], lowerQuery);
        if k > 0 {
          assert AliasAccepts(aliases[1..][k - 1], lowerQuery);
        }
      }
    }
  }

  /**
   * `matches(query)` holds exactly when some alias, lower-cased, is a prefix
   * of the normalised query or contains it.
   */
  lemma MatchesIff(info: CommandInfo, query: string)
    ensures Matches(info, query) <==>
      exists k :: 0 <= k < |info.aliases| && AliasAccepts(info.aliases[k], NormaliseQuery(query))
  {
    AnyAliasAcceptsIff(info.aliases, NormaliseQuery(query));
  }

  /** A blank query normalises to the empty string. */
  lemma BlankNormalisesEmpty(query: string)
    requires IsBlank(query)
    ensures NormaliseQuery(query) == []
  {
    TrimSpec(query);
    TrimSpec(Lower(query));
  }

  /** A lower-case string with no whitespace at either end is its own normal form. */
  lemma NormalisedAlready(s: string)
    requires IsLower(s) && s != [] && !IsWhitespace(s[0]) && !IsWhitespace(s[|s| - 1])
    ensures NormaliseQuery(s) == s
  {
    LowerOfLower(s);
    assert TrimEnd(s) == s;
    assert TrimStart(s) == s;
  }

  /** Every alias contains the empty string, so any command matches a blank query. */
  lemma MatchesBlank(info: CommandInfo, query: string)
    requires info.aliases != [] && IsBlank(query)
    ensures Matches(info, query)
  {
    BlankNormalisesEmpty(query);
    ContainsEmpty(Lower(info.aliases[0]));
    assert AliasAccepts(info.aliases[0], NormaliseQuery(query));
    MatchesIff(info, query);
  }

  /**
   * The first alias, in declaration order, whose lower-cased form is a prefix
   * of the normalised query.
   */
  function FirstPrefixAlias(aliases: seq<string>, lowerQuery: string): (r: Option<nat>)
    ensures r.Some? ==> r.value < |aliases| && StartsWith(lowerQuery, Lower(aliases[r.value]))
    ensures r.Some? ==> forall k :: 0 <= k < r.value ==> !StartsWith(lowerQuery, Lower(aliases[k]))
    ensures r.None? ==> forall k :: 0 <= k < |aliases| ==> !StartsWith(lowerQuery, Lower(aliases[k]))
  {
    if aliases == [] then None
    else if StartsWith(lowerQuery, Lower(aliases[0])) then Some(0)
    else match FirstPrefixAlias(aliases[1..], lowerQuery)
      case None => None
      case Some(k) => Some(k + 1)
  }

  /**
   * `extractArgument(query)`: with the first prefixing alias, the original
   * query without as many characters as the alias has, trimmed; with none,
   * the query unchanged.
   */
  function ExtractArgument(info: CommandInfo, query: string): (arg: string)
    ensures (forall k :: 0 <= k < |info.aliases| ==> !StartsWith(NormaliseQuery(query), Lower(info.aliases[k])))
      ==> arg == query
  {
    match FirstPrefixAlias(info.aliases, NormaliseQuery(query))
    case None => query
    case Some(k) => Trim(Drop(query, |info.aliases[k]|))
  }

  /**
   * When alias `k` is the first, in declaration order, to prefix the
   * normalised query, the argument is the original query after `|alias|`
   * characters, trimmed.
   */
  lemma ExtractArgumentFirstAlias(info: CommandInfo, query: string, k: nat)
    requires k < |info.aliases| && StartsWith(NormaliseQuery(query), Lower(info.aliases[k]))
    requires forall j :: 0 <= j < k ==> !StartsWith(NormaliseQuery(query), Lower(info.aliases[j]))
    ensures ExtractArgument(info, query) == Trim(Drop(query, |info.aliases[k]|))
  {
    FirstPrefixAliasAt(info.aliases, NormaliseQuery(query), k);
  }

  /** The first prefixing alias is the one that prefixes the query with none before it. */
  lemma FirstPrefixAliasAt(aliases: seq<string>, lowerQuery: string, k: nat)
    requires k < |aliases| && StartsWith(lowerQuery, Lower(aliases[k]))
    requires forall j :: 0 <= j < k ==> !StartsWith(lowerQuery, Lower(aliases[j]))
    ensures FirstPrefixAlias(aliases, lowerQuery) == Some(k)
  {
    var r := FirstPrefixAlias(aliases, lowerQuery);
    assert r.Some?;
    assert !(r.value < k);
  }

  /** An alias that prefixes the query yields a trimmed argument. */
  lemma ExtractedIsTrimmed(info: CommandInfo, query: string)
    requires FirstPrefixAlias(info.aliases, NormaliseQuery(query)).Some?
    ensures ExtractArgument(info, query) == Trim(ExtractArgument(info, query))
  {
    var k := FirstPrefixAlias(info.aliases, NormaliseQuery(query)).value;
    TrimIdempotent(Drop(query, |info.aliases[k]|));
  }

  /** `getDisplayTitle(query)`: "<name>: <argument>" for a non-empty argument, else the name. */
  function DefaultDisplayTitle(info: CommandInfo, query: string): string
  {
    var argument := ExtractArgument(info, query);
    if argument != [] then info.name + ": " + argument else info.name
  }

  /**
   * The default title always starts with the command's name, is the bare
   * name exactly when the argument is empty, and, when no alias prefixes the
   * query, shows the whole query after the name.
   */
  lemma DefaultDisplayTitleShape(info: CommandInfo, query: string)
    ensures StartsWith(DefaultDisplayTitle(info, query), info.name)
    ensures DefaultDisplayTitle(info, query) == info.name <==> ExtractArgument(info, query) == []
    ensures FirstPrefixAlias(info.aliases, NormaliseQuery(query)).None? && query != []
      ==> DefaultDisplayTitle(info, query) == info.name + ": " + query
  {
    var arg := ExtractArgument(info, query);
    if FirstPrefixAlias(info.aliases, NormaliseQuery(query)).None? {
      assert arg == query;
    }
    NamedTitle(info.name, arg);
  }

  /** The title built from a name and an argument, as a fact about strings alone. */
  lemma NamedTitle(name: string, arg: string)
    ensures var t := if arg != [] then name + ": " + arg else name;
      StartsWith(t, name) && (t == name <==> arg == [])
  {
    var t := if arg != [] then name + ": " + arg else name;
    assert t[..|name|] == name;
    if arg != [] {
      assert |t| > |name|;
    }
  }

  /** The id of the one suggestion a command offers. */
  function SuggestionId(info: CommandInfo): string
  {
    info.id + "-suggestion"
  }

  /**
   * `getSuggestions(query)`, given the command's own display title for it:
   * nothing when the command does not match, otherwise one action item.
   */
  function Suggestions(info: CommandInfo, query: string, displayTitle: string): (r: seq<Item>)
    ensures |r| <= 1
    ensures r == [] <==> !Matches(info, query)
    ensures r != [] ==> r[0] == ActionItem(SuggestionId(info), displayTitle, NoEffect)
  {
    if !Matches(info, query) then []
    else [ActionItem(SuggestionId(info), displayTitle, NoEffect)]
  }

  /** `canExecute(context)`: every command may always run. */
  function CanExecute(context: CommandContext): (b: bool)
    ensures b
  {
    true
  }
}
