# steroid palette — a Dafny model

steroid is a Chrome extension that opens a command palette over any page.
A double Shift opens the palette and Escape closes it. The palette that
`App` mounts (src/App.tsx:2, :149) is the one in
src/components/CommandPalette.tsx. It lists the tabs, a fuzzy match of them,
a Google row or a URL row, and it acts only when a row is clicked. A
background script keeps a most-recent-first tab history and carries out
each tab operation against the Chrome API.

The repository also holds a second palette, src/components/CommandPaletteNew.tsx.
It is built on the `useCommandPalette` hook, the command registry and the
keybinding system, and it lists matching tabs, tab groups, search engines
and commands, with a keyboard cursor over the rows. No file imports
CommandPaletteNew.tsx, so from the build's entry points (the background
script and the content script that mounts `App`) that palette, the hooks
and the whole keybinding system cannot be reached. The model covers both
palettes and says for each part which one it belongs to.

This project models the logic behind all of that and proves what it
promises. Each source file has a Dafny module of its own:

- **Query classification** (`CommandParser`). The raw input is sorted into
  one of six command types by testing prefixes of its lower-cased, trimmed
  form in a fixed order.
- **Commands** (`BaseCommand`, `Commands`, one module per command class,
  and `CommandTypes`). This covers:
  - alias matching and argument extraction;
  - the default display title and the single suggestion a matching command
    offers;
  - each command's alias table, result list and `execute`.

  An `execute` is a function from the execution context and Chrome's reply
  to the request it sends, the result it returns and the lists (tabs,
  tab groups) it fetches again afterwards.
- **Registry** (`CommandRegistry`, `CommandIndex`). The registry is a
  class holding two maps that keep insertion order: commands by id and
  commands by lower-cased alias. It provides the three-tier lookup (exact
  alias, then alias prefix, then `matches`), suggestions, `parseQuery` and
  the error wrapping of `executeCommand`. `CommandIndex` models
  `initializeCommands`, which registers nine commands in a fixed order. It
  proves that:
  - no two commands share an alias;
  - "close tabs" resolves to close_multiple, but "close tabs foo" resolves
    to close_single;
  - initialising a second time changes nothing.

  `close_current` is modelled but, as in the source, never registered.
- **Palette state** (`PaletteState`). This part belongs to the unmounted
  palette. The state of `useCommandPalette` is a class with these fields:
  - query, fetched tabs and groups;
  - cursor;
  - command mode and the locked command;
  - the set of selected tabs.

  The current command and the result rows are functions of those fields. A
  locked command beats the query. In command mode, selected tabs are
  dropped. A blank query lists ten recent tabs. Any other query lists
  suggestions, then matching tabs, then a Google fallback. Once the nine
  commands are registered, every command matches a blank query and the
  first registered one is `previous_tab`. So a blank query with no locked
  command resolves to `previous_tab`, which lists nothing: the palette
  shows no rows (`BlankQueryShowsNothing`), and the "recent tabs" branch is
  never reached.
- **Unmounted palette component** (`PaletteNew`, CommandPaletteNew.tsx,
  which no file imports). The cursor moves clamp rather than wrap. Enter acts on the row under the cursor: it toggles, switches to or
  closes a tab, runs a suggested command or enters command mode with it.
  The component also enters and leaves command mode, closes, and puts the
  cursor back to zero when the rows change. Every handler is a method on
  the palette object, proved against a function of the old state.
- **Mounted palette** (`PaletteLegacy`, CommandPalette.tsx, the palette
  `App` renders). The query is classified as a Google search, a URL, a
  blank query or a fuzzy search, and clicking a row acts on it. It has no
  keyboard navigation and no commands.
- **Keyboard dispatch** (`KeybindingManager`, `NavigationKeys`,
  `SelectionKeys`, `KeybindingSystem`). Only the unmounted palette uses
  this part. The manager is a class holding
  handler objects in registration order and the context they read. It
  provides `register`, `unregister`, `clear`, `updateContext`, `getContext`
  and `handleKeyEvent`. The models state:
  - the guard of each of the six navigation and ten selection bindings;
  - their registration order;
  - that no key is bound in both groups;
  - that `destroy` leaves no handlers.
- **Open toggle** (`App`). A two-variable state machine: a Shift within
  300 ms of the previous Shift opens the palette, and Escape closes it.
- **Tab history** (`TabHistory`, `Background`). This covers:
  - the bounded move-to-front list;
  - the previous-tab lookup;
  - history and access-time cleanup;
  - the list logic of the GET_TABS, CLOSE_TAB, CLOSE_DUPLICATE_TABS,
    CREATE_TAB_GROUP and DELETE_TAB_GROUP handlers.

  The handlers' loops are methods of a `Store` class, proved against
  functions of the stored lists.
- **Library support** (`Strings`, `Seqs`, `Wrappers`). The JavaScript string
  and array operations the source uses, and a `Map` that keeps insertion
  order.

Contexts, rows and results are values. So the copy that `getContext` makes
is implicit, and rows are compared by value.

## Model

| member | source | states |
|---|---|---|
| CommandParser.ParseCommand | src/utils/commandParser.ts:14-64 | every input is classified; `originalQuery` is the input, and a tab search keeps the input as its query |
| CommandParser.Classify | src/utils/commandParser.ts:15-63 | the ordered test chain over the normalised input; same two guarantees as `ParseCommand` |
| CommandParser.ClassifyGoogle | src/utils/commandParser.ts:17-23 | a normalised "g " prefix gives a google command whose query is the raw input from index 2, trimmed |
| CommandParser.ClassifyYouTube | src/utils/commandParser.ts:25-31 | a normalised "y " prefix (google not matching) gives a youtube command with the raw input from index 2, trimmed |
| CommandParser.ClassifyYouTubeLong | src/utils/commandParser.ts:25-31 | a normalised "youtube " prefix gives a youtube command with the raw input from index 8, trimmed |
| CommandParser.ClassifyCloseDuplicate | src/utils/commandParser.ts:33-39 | a normalised "close duplicate" prefix gives closeDuplicate with an empty query |
| CommandParser.ClassifyClose | src/utils/commandParser.ts:41-47 | "close " without "duplicate" after it gives close with the raw input from index 6, trimmed |
| CommandParser.CloseDuplicateIgnoresRest | src/utils/commandParser.ts:33-39 | any input normalising to "close duplicate…" parses to closeDuplicate with query "", whatever follows |
| CommandParser.CloseArgument | src/utils/commandParser.ts:41-47 | "close " + x, x non-blank and not starting "duplicate", parses to close with query trim(x) |
| CommandParser.NotCloseDuplicate | src/utils/commandParser.ts:33-47 | "close " + x reaches the close branch when x does not start with "duplicate" |
| CommandParser.CloseDuplicateArgument | src/utils/commandParser.ts:33 | "close " + x normalises to a "close duplicate" prefix only when lower(x) starts with "duplicate" |
| CommandParser.NoSpaceNoPrefix | src/utils/commandParser.ts:15-47 | an input with no space carries none of the command prefixes once lower-cased and trimmed |
| CommandParser.OpenUrlIff | src/utils/commandParser.ts:50-56 | the type is openUrl if and only if the input contains '.' and no space; its query is then the whole input |
| CommandParser.GoogleArgument | src/utils/commandParser.ts:17-23 | "g " + x, x non-blank, parses to google with query trim(x) |
| CommandParser.GoogleLongArgument | src/utils/commandParser.ts:17-23 | "google " + x, x non-blank, parses to google with query trim(x) |
| CommandParser.YouTubeArgument | src/utils/commandParser.ts:25-31 | "y " + x, x non-blank, parses to youtube with query trim(x) |
| CommandParser.YouTubeLongArgument | src/utils/commandParser.ts:25-31 | "youtube " + x, x non-blank, parses to youtube with query trim(x) |
| CommandParser.NormalisePrefix | src/utils/commandParser.ts:15 | lower-casing and trimming a command word followed by a non-blank argument keeps the word whole |
| CommandParser.PrefixedStarts | src/utils/commandParser.ts:15-17 | the normalised form of a command word plus a non-blank argument starts with that word |
| CommandParser.NormaliseBare | src/utils/commandParser.ts:15 | "google" followed only by whitespace normalises to "google", losing the space the prefix needs |
| CommandParser.ClassifyBare | src/utils/commandParser.ts:17-63 | with "google" as the normalised form and no '.', every test fails and the result is a tab search |
| CommandParser.BarePrefixIsTabSearch | src/utils/commandParser.ts:15-17 | "google" followed only by whitespace is a tab search, not a google command |
| BaseCommand.AnyAliasAcceptsIff | src/commands/BaseCommand.ts:20-23 | the `some` over aliases holds if and only if one alias is a prefix of the normalised query or contains it |
| BaseCommand.MatchesIff | src/commands/BaseCommand.ts:18-24 | `matches(q)` holds if and only if some lower-cased alias prefixes lower(trim(q)) or contains it |
| BaseCommand.BlankNormalisesEmpty | src/commands/BaseCommand.ts:19 | a blank or whitespace-only query normalises to the empty string |
| BaseCommand.NormalisedAlready | src/commands/BaseCommand.ts:19 | a lower-case query with no whitespace at either end is its own normal form |
| BaseCommand.MatchesBlank | src/commands/BaseCommand.ts:18-24 | every command with an alias matches a blank query, since every alias contains the empty string |
| BaseCommand.FirstPrefixAlias | src/commands/BaseCommand.ts:32-37 | the loop's first alias, in declaration order, that prefixes the normalised query; none earlier does, and None means none does |
| BaseCommand.ExtractArgument | src/commands/BaseCommand.ts:29-40 | with no alias prefixing the normalised query the query comes back unchanged |
| BaseCommand.ExtractArgumentFirstAlias | src/commands/BaseCommand.ts:32-36 | when alias k is the first prefix, the argument is the raw query with |alias k| characters dropped, trimmed |
| BaseCommand.FirstPrefixAliasAt | src/commands/BaseCommand.ts:32-37 | the alias loop stops at the first prefixing alias and at no other |
| BaseCommand.ExtractedIsTrimmed | src/commands/BaseCommand.ts:35 | an argument cut after an alias has no surrounding whitespace |
| BaseCommand.DefaultDisplayTitleShape | src/commands/BaseCommand.ts:62-68 | the default title starts with the name, is the name alone exactly when the argument is empty, and shows the whole query when no alias prefixes it |
| BaseCommand.Suggestions | src/commands/BaseCommand.ts:73-87 | empty if and only if the command does not match; otherwise exactly one action item with id "<id>-suggestion" and the command's display title |
| BaseCommand.CanExecute | src/commands/BaseCommand.ts:55-57 | always true |
| CommandRegistry.AliasWrites | src/commands/CommandRegistry.ts:19-21 | one write per alias, in declaration order, keyed by the lower-cased alias and bound to the command |
| CommandRegistry.AliasWritesBind | src/commands/CommandRegistry.ts:19-21 | after registering c, each of its lower-cased aliases maps to c; every other key keeps its previous binding |
| CommandRegistry.Registered | src/commands/CommandRegistry.ts:59-75 | the commands in registration (map insertion) order, one per id |
| CommandRegistry.FirstEqual | src/commands/CommandRegistry.ts:43-48 | the first alias key equal to the normalised query; none earlier is, and None means none is |
| CommandRegistry.FirstPrefix | src/commands/CommandRegistry.ts:51-56 | the first alias key the normalised query starts with; none earlier, and None means none |
| CommandRegistry.FirstMatching | src/commands/CommandRegistry.ts:59-64 | the first command, in registration order, that `matches` the query; none earlier, and None means none |
| CommandRegistry.FirstPrefixAppend | src/commands/CommandRegistry.ts:51-56 | a prefixing key found among earlier keys still wins after more keys are added |
| CommandRegistry.FirstPrefixAfter | src/commands/CommandRegistry.ts:51-56 | with no prefixing key among the earlier keys, the first prefix is the later keys' first, shifted by their offset |
| CommandRegistry.ResolveTiers | src/commands/CommandRegistry.ts:38-68 | an alias tier hit is the answer; otherwise the answer is the `matches` tier over registration order |
| CommandRegistry.AliasTierExact | src/commands/CommandRegistry.ts:43-48 | an alias equal to the normalised query gives that alias's command, ahead of any prefix match |
| CommandRegistry.AliasTierNone | src/commands/CommandRegistry.ts:43-56 | the first two tiers fail if and only if no alias key prefixes the normalised query |
| CommandRegistry.MatchTierNone | src/commands/CommandRegistry.ts:59-64 | the third tier fails if and only if no registered command matches |
| CommandRegistry.ResolveExact | src/commands/CommandRegistry.ts:42-48 | an exact alias match decides `findCommand`, whatever the later tiers would say |
| CommandRegistry.ResolveNone | src/commands/CommandRegistry.ts:38-68 | `findCommand` returns null if and only if no alias key prefixes the normalised query and no registered command matches it |
| CommandRegistry.AliasTierEmpty | src/commands/CommandRegistry.ts:43-56 | with no empty alias key, an empty normalised query hits neither alias tier |
| CommandRegistry.MatchTierEmptyQuery | src/commands/CommandRegistry.ts:58-64 | an empty normalised query is matched by the first registered command |
| CommandRegistry.ResolveBlank | src/commands/CommandRegistry.ts:58-64 | a blank query resolves through the third tier to the first registered command |
| CommandRegistry.AllSuggestions | src/commands/CommandRegistry.ts:91-99 | the concatenated per-command suggestions hold at most one item per command |
| CommandRegistry.AllSuggestionsMembers | src/commands/CommandRegistry.ts:91-99 | an item is a suggestion if and only if it is the "<id>-suggestion" action, with its display title, of a command that matches the query |
| CommandRegistry.AllSuggestionsSound | src/commands/CommandRegistry.ts:91-99 | every suggested item is the suggestion row of a command that matches the query |
| CommandRegistry.AllSuggestionsComplete | src/commands/CommandRegistry.ts:91-99 | the suggestion row of every matching command is suggested |
| CommandRegistry.ParsedQuery | src/commands/CommandRegistry.ts:149-157 | the command is `findCommand`'s result; when nothing resolves the argument is the query unchanged |
| CommandRegistry.ScanEqual | src/commands/CommandRegistry.ts:43-48 | the exact-alias loop returns the first equal key |
| CommandRegistry.ScanPrefix | src/commands/CommandRegistry.ts:51-56 | the prefix loop returns the first prefixing key |
| CommandRegistry.ScanMatching | src/commands/CommandRegistry.ts:59-64 | the `matches` loop returns the first matching command |
| CommandRegistry.Registry.constructor | src/commands/CommandRegistry.ts:8-10 | both maps start empty |
| CommandRegistry.Registry.Register | src/commands/CommandRegistry.ts:15-26 | `commands` gets the id written (a later registration under the same id overwrites) and every lower-cased alias is written in order |
| CommandRegistry.Registry.GetCommand | src/commands/CommandRegistry.ts:31-33 | found if and only if the id was registered, and then it is the command stored under it |
| CommandRegistry.Registry.FindCommand | src/commands/CommandRegistry.ts:38-68 | the three loops return exactly `Resolve`: exact alias, then prefix alias, then `matches` |
| CommandRegistry.Registry.GetCommandSuggestions | src/commands/CommandRegistry.ts:80-103 | a blank query gives []; otherwise the suggestions of every command in registration order, at most one per command |
| CommandRegistry.Registry.ExecuteCommand | src/commands/CommandRegistry.ts:108-132 | an unknown id gives failure "Command not found: <id>", sends nothing and fetches nothing; otherwise the command's request, result and refetched lists are passed on, and an exception inside execute becomes a failure carrying its message, never a throw |
| CommandRegistry.Registry.GetCommandSearchResults | src/commands/CommandRegistry.ts:137-144 | an unknown id gives []; otherwise the command's own results |
| CommandRegistry.Registry.ParseQuery | src/commands/CommandRegistry.ts:149-157 | returns `ParsedQuery` of the current maps |
| CommandIndex.RegisterNext | src/commands/CommandRegistry.ts:15-21 | one `register` call extends the id writes and the alias writes by that command's |
| CommandIndex.RegisterStep | src/commands/CommandRegistry.ts:15-21 | registering one more command equals replaying the writes of the longer registration list |
| CommandIndex.InitializeCommands | src/commands/index.ts:31-43 | the nine `register` calls leave the id map and alias map equal to the writes of the nine commands, in the fixed order |
| CommandIndex.InitializeTwice | src/commands/index.ts:31-43 | calling `initializeCommands` a second time leaves both maps as they were |
| CommandIndex.InitialIds | src/commands/index.ts:33-41 | from an empty registry the ids are previous_tab, close_duplicates, close_single, close_multiple, new_tab, group_tabs, delete_group, search, url, in that order |
| CommandIndex.PreviousTabSharesNoAlias | src/commands/PreviousTabCommand.ts:11 | no previous_tab alias is declared by another registered command |
| CommandIndex.CloseDuplicatesSharesNoAlias | src/commands/CloseDuplicateTabsCommand.ts:11 | no close_duplicates alias is declared by another registered command |
| CommandIndex.CloseSingleSharesNoAlias | src/commands/CloseTabCommand.ts:11 | no close_single alias is declared by another registered command |
| CommandIndex.CloseMultipleSharesNoAlias | src/commands/CloseMultipleTabsCommand.ts:11 | no close_multiple alias is declared by another registered command |
| CommandIndex.NewTabSharesNoAlias | src/commands/NewTabCommand.ts:11 | no new_tab alias is declared by another registered command |
| CommandIndex.GroupTabsSharesNoAlias | src/commands/CreateTabGroupCommand.ts:11 | no group_tabs alias is declared by another registered command |
| CommandIndex.DeleteGroupSharesNoAlias | src/commands/DeleteTabGroupCommand.ts:11 | no delete_group alias is declared by another registered command |
| CommandIndex.SearchSharesNoAlias | src/commands/SearchCommand.ts:28 | no search alias is declared by another registered command |
| CommandIndex.UrlSharesNoAlias | src/commands/OpenUrlCommand.ts:11 | no url alias is declared by another registered command |
| CommandIndex.NoSharedAlias | src/commands/index.ts:33-41 | no two registered commands declare a common alias |
| CommandIndex.AliasesLowerCase | src/commands/CommandRegistry.ts:20 | every declared alias is already lower case, so lower-casing it in `register` changes nothing |
| CommandIndex.AliasBound | src/commands/CommandRegistry.ts:19-21 | an alias no later command redeclares stays bound to the command that declared it |
| CommandIndex.InitialAliases | src/commands/index.ts:33-41 | after initialisation every alias of every registered command maps to that command: the alias map overwrites nothing |
| CommandIndex.CloseTabsExact | src/commands/CommandRegistry.ts:43-48 | the exact query "close tabs" resolves to close_multiple |
| CommandIndex.CloseTabsPrefix | src/commands/CommandRegistry.ts:51-56 | "close tabs foo" resolves to close_single, whose alias "close tab" is the first prefix in alias-map order |
| CommandIndex.AliasWritesOfAppend | src/commands/index.ts:33-41 | the alias writes of two registration runs are those of the first run followed by those of the second |
| CommandIndex.AliasWritesKeys | src/commands/CommandRegistry.ts:19-21 | a command's alias writes have its declared aliases as keys, in order |
| CommandIndex.AliasWritesOfMembers | src/commands/CommandRegistry.ts:19-21 | every alias write carries the lower-cased form of some declared alias |
| CommandIndex.PutAllFirstPrefix | src/commands/CommandRegistry.ts:51-56 | from an empty map, the first prefixing key in map order is the first prefixing key among the writes |
| CommandIndex.NoAliasEquals | src/commands/CommandRegistry.ts:43-48 | "close tabs foo" equals no alias key |
| CommandIndex.PreviousTabNoPrefix | src/commands/PreviousTabCommand.ts:11 | no previous_tab alias prefixes "close tabs foo" |
| CommandIndex.CloseDuplicatesNoPrefix | src/commands/CloseDuplicateTabsCommand.ts:11 | no close_duplicates alias prefixes "close tabs foo" |
| CommandIndex.CloseSingleFirstPrefix | src/commands/CloseTabCommand.ts:11 | "close tab", the first close_single alias, prefixes "close tabs foo" |
| CommandIndex.FrontKeys | src/commands/index.ts:33-35 | the alias keys begin with those of the first three commands registered |
| CommandIndex.FirstPrefixIsCloseTab | src/commands/index.ts:33-35 | the first alias key prefixing "close tabs foo" is close_single's "close tab" |
| CommandTypes.Failure | src/commands/CommandTypes.ts:42-49 | a failed execution result carries the error and asks neither to close nor to enter command mode |
| CommandTypes.Closing | src/commands/CommandTypes.ts:42-49 | a successful result with a message that closes the palette and does not enter command mode |
| CommandTypes.Rejected | src/commands/CloseMultipleTabsCommand.ts:41-46 | a validation failure sends no request, fetches nothing and fails with the given error |
| CommandTypes.Settle | src/commands/PreviousTabCommand.ts:23-30 | the sent request is kept; `chrome.runtime.lastError` gives a failure with its message, a thrown error is raised, an answer goes to the command's own mapping; lists are fetched again only after an answer that the mapping makes a success |
| CommandTypes.TabItems | src/commands/CloseMultipleTabsCommand.ts:21-24 | one tab item per tab, in order |
| CommandTypes.TabItemsMembers | src/commands/CloseMultipleTabsCommand.ts:21-24 | the tab items are exactly the items of the given tabs |
| CommandTypes.MatchingTabs | src/commands/CloseTabCommand.ts:32-36 | an order-keeping subsequence of the tabs holding exactly those whose title or url contains the lower-cased query |
| CommandTypes.UnselectedTabs | src/commands/CreateTabGroupCommand.ts:19-40 | an order-keeping subsequence holding exactly the tabs whose id is not selected |
| Commands.Info | src/commands/index.ts:33-41 | every command declares at least one alias |
| Commands.Make | src/commands/index.ts:33-41 | the command object of a kind carries that kind's declaration |
| Commands.Suggestions | src/commands/BaseCommand.ts:73-87 | each command's `getSuggestions`, with its own `getDisplayTitle`: empty if and only if it does not match, else one "<id>-suggestion" action |
| Commands.SuggestsOnBlank | src/commands/BaseCommand.ts:18-24 | every command offers exactly one suggestion for a blank query |
| Commands.RefreshOnlyAfterSuccess | src/commands/CommandTypes.ts:61-62 | a command calls `fetchTabs` / `fetchTabGroups` only after it sent its request and succeeded; it then always fetches the tabs, only the two group commands fetch the groups, and previous_tab fetches nothing |
| PreviousTabCommand.AliasesLowerCase | src/commands/PreviousTabCommand.ts:11 | the aliases are declared in lower case |
| PreviousTabCommand.DisplayTitle | src/commands/PreviousTabCommand.ts:48-51 | the constant "Previous Tab", whatever the query |
| PreviousTabCommand.SearchResults | src/commands/PreviousTabCommand.ts:16-19 | always empty |
| PreviousTabCommand.ExecuteSpec | src/commands/PreviousTabCommand.ts:21-46 | sends SWITCH_TO_PREVIOUS_TAB; succeeds, with "Switched to previous tab" and closing, if and only if the answer reports success; otherwise an answer fails with the response message or "No previous tab available", a runtime error fails with its message and a thrown error is raised; never fetches the tabs again |
| CloseDuplicateTabsCommand.AliasesLowerCase | src/commands/CloseDuplicateTabsCommand.ts:11 | the aliases are declared in lower case |
| CloseDuplicateTabsCommand.SearchResults | src/commands/CloseDuplicateTabsCommand.ts:16-19 | always empty |
| CloseDuplicateTabsCommand.ExecuteSpec | src/commands/CloseDuplicateTabsCommand.ts:21-49 | sends CLOSE_DUPLICATE_TABS; succeeds if and only if the answer reports success, reporting closedCount (0 when absent) and closing; otherwise an answer fails with the fixed error "Failed to close duplicate tabs", a runtime error fails with its message and a thrown error is raised; the tabs are fetched again exactly after a successful answer |
| CloseCurrentTabCommand.AliasesLowerCase | src/commands/CloseCurrentTabCommand.ts:11 | the aliases are declared in lower case |
| CloseCurrentTabCommand.DisplayTitle | src/commands/CloseCurrentTabCommand.ts:61-63 | the constant "Close current tab" |
| CloseCurrentTabCommand.SearchResults | src/commands/CloseCurrentTabCommand.ts:16-24 | always the one action "close_current-suggestion", whatever the query |
| CloseCurrentTabCommand.ExecuteSpec | src/commands/CloseCurrentTabCommand.ts:26-59 | sends CLOSE_CURRENT_TAB; succeeds, closing, if and only if the answer reports success; otherwise an answer fails with the response error or "Failed to close current tab", a runtime error fails with its message and a thrown error is raised; the tabs are fetched again exactly after a successful answer |
| NewTabCommand.AliasesLowerCase | src/commands/NewTabCommand.ts:11 | the aliases are declared in lower case |
| NewTabCommand.DisplayTitle | src/commands/NewTabCommand.ts:49-51 | the constant "New Tab" |
| NewTabCommand.SearchResults | src/commands/NewTabCommand.ts:16-26 | always the one action "execute-new-tab", whatever the query |
| NewTabCommand.ExecuteSpec | src/commands/NewTabCommand.ts:28-47 | creates a tab; succeeds with "Created new tab" and closing on any answer, fails with the runtime error on a runtime error, and raises a thrown error; the tabs are fetched again exactly after an answer |
| CloseTabCommand.AliasesLowerCase | src/commands/CloseTabCommand.ts:11 | the aliases are declared in lower case |
| CloseTabCommand.CloseActions | src/commands/CloseTabCommand.ts:37-42 | one close row per tab, in order: title or "Untitled Tab", id "close-tab-<id>" |
| CloseTabCommand.CloseActionsMembers | src/commands/CloseTabCommand.ts:37-42 | the close rows are exactly the rows of the given tabs |
| CloseTabCommand.SearchResults | src/commands/CloseTabCommand.ts:16-48 | a blank argument gives the one "close_single-suggestion" prompt; otherwise exactly the close rows of the tabs whose title or url contains the argument, case-insensitively, in tab order |
| CloseTabCommand.ExecuteSpec | src/commands/CloseTabCommand.ts:50-115 | an empty query fails with "Context.query is null/undefined"; a blank argument fails with "No tab specified for closing" before the selection is looked at; an empty selection then fails with "No tabs selected for closing"; a request is sent if and only if all three pass, and it closes exactly the selection; any answer, whatever it reports, is a success "Closed N tab(s)" that closes the palette and fetches the tabs again; a runtime error fails with its message and a thrown error is raised |
| CloseTabCommand.ScanArgument | src/commands/CloseTabCommand.ts:60-68 | the alias loop with `break` yields the raw query after the first prefixing alias, trimmed, or the whole query when none prefixes |
| CloseTabCommand.Execute | src/commands/CloseTabCommand.ts:50-115 | the imperative `execute` returns exactly `ExecuteSpec` |
| CloseMultipleTabsCommand.AliasesLowerCase | src/commands/CloseMultipleTabsCommand.ts:11 | the aliases are declared in lower case |
| CloseMultipleTabsCommand.SearchResults | src/commands/CloseMultipleTabsCommand.ts:16-38 | a blank argument lists every tab in order; otherwise exactly the tabs whose title or url contains the argument, case-insensitively, in tab order (the filtered list, each as a tab row) |
| CloseMultipleTabsCommand.ExecuteSpec | src/commands/CloseMultipleTabsCommand.ts:40-70 | fails with "No tabs selected for closing", sending nothing, if and only if the selection is empty; otherwise closes exactly the selection; any answer is a success reporting the selection's size, pluralised, that closes the palette and fetches the tabs again; a runtime error fails with its message and a thrown error is raised |
| CreateTabGroupCommand.AliasesLowerCase | src/commands/CreateTabGroupCommand.ts:11 | the aliases are declared in lower case |
| CreateTabGroupCommand.SearchResults | src/commands/CreateTabGroupCommand.ts:16-41 | never lists a selected tab; a blank argument lists the unselected tabs in tab order, otherwise the unselected tabs whose title or url contains the argument, case-insensitively, in tab order |
| CreateTabGroupCommand.GroupAnswer | src/commands/CreateTabGroupCommand.ts:90-104 | a successful answer, and only that, is a success: it closes the palette with the response message or "Created group "<name>" with N tabs"; any other answer fails with the response error or "Failed to create tab group" |
| CreateTabGroupCommand.ExecuteSpec | src/commands/CreateTabGroupCommand.ts:43-108 | a selection of 0 fails with "No tabs selected for grouping", of 1 with "At least 2 tabs required to create a group", both before the name is looked at; with two or more and a blank name it asks for input and creates nothing; a request is sent if and only if there are two or more tabs and a name, and it groups the selection under the trimmed name; an answer gives the group answer for that name and count, a runtime error fails with its message, a thrown error is raised; tabs and groups are fetched again exactly after a successful answer |
| DeleteTabGroupCommand.AliasesLowerCase | src/commands/DeleteTabGroupCommand.ts:11 | the aliases are declared in lower case |
| DeleteTabGroupCommand.GroupRows | src/commands/DeleteTabGroupCommand.ts:21-26 | one group row per group, in order: title or "Group <id>", id "group-<id>" |
| DeleteTabGroupCommand.GroupRowsMembers | src/commands/DeleteTabGroupCommand.ts:21-26 | the group rows are exactly the rows of the given groups |
| DeleteTabGroupCommand.MatchingGroups | src/commands/DeleteTabGroupCommand.ts:31-35 | an order-keeping subsequence holding exactly the groups whose title or decimal id contains the query |
| DeleteTabGroupCommand.SearchResults | src/commands/DeleteTabGroupCommand.ts:16-42 | a blank argument lists every group; otherwise exactly the groups whose title contains the argument case-insensitively or whose id contains it, in list order |
| DeleteTabGroupCommand.GroupWithId | src/commands/DeleteTabGroupCommand.ts:50-52 | a group with the selected id if one is listed; None only when no group has that id |
| DeleteTabGroupCommand.FirstMatchingGroup | src/commands/DeleteTabGroupCommand.ts:61-64 | the first group, in list order, that passes the filter; None only when none does |
| DeleteTabGroupCommand.Target | src/commands/DeleteTabGroupCommand.ts:46-66 | a listed `selectedGroupId` wins over the query; otherwise the first group matching a non-blank argument, or none |
| DeleteTabGroupCommand.DeleteAnswer | src/commands/DeleteTabGroupCommand.ts:88-102 | a successful answer, and only that, is a success: it closes the palette with the response message or "Deleted group "<title or id>""; any other answer fails with the response error or "Failed to delete tab group" |
| DeleteTabGroupCommand.ExecuteSpec | src/commands/DeleteTabGroupCommand.ts:44-105 | fails with "No tab group selected for deletion", sending nothing, if and only if there is no target; otherwise ungroups the target: an answer gives the delete answer for that group, a runtime error fails with its message, a thrown error is raised; tabs and groups are fetched again exactly after a successful answer |
| SearchCommand.AliasesLowerCase | src/commands/SearchCommand.ts:28 | the aliases are declared in lower case |
| SearchCommand.MatchingEngines | src/commands/SearchCommand.ts:50-53 | an order-keeping subsequence of the table holding exactly the engines whose name or shortcut contains the lower-cased argument |
| SearchCommand.EngineRows | src/commands/SearchCommand.ts:38-43 | one "search-<shortcut>" row per engine, in table order, titled "Search with <name>" |
| SearchCommand.QueryRows | src/commands/SearchCommand.ts:56-61 | one "search-<shortcut>-<argument>" row per engine, in order, titled with the argument and the engine |
| SearchCommand.SearchResults | src/commands/SearchCommand.ts:33-71 | never empty: a blank argument lists all eight engines; otherwise the rows of the matching engines, or the one Google row when none matches |
| SearchCommand.NamedEngine | src/commands/SearchCommand.ts:90-93 | an engine whose shortcut or name, lower-cased, equals the word; None only when no engine does |
| SearchCommand.ExecuteSpec | src/commands/SearchCommand.ts:73-136 | a blank argument, and only a blank argument, fails with "Please provide a search query"; otherwise it opens the chosen engine's url followed by the encoded query and on any answer reports the query and the engine, closing the palette and fetching the tabs again; a runtime error fails with its message and a thrown error is raised |
| SearchCommand.ChoiceNamedEngine | src/commands/SearchCommand.ts:87-101 | a first word naming an engine, followed by a space, selects that engine with the rest of the argument as the query |
| SearchCommand.ChoiceAtSpace | src/commands/SearchCommand.ts:87-98 | at the first space, an engine word in front selects that engine for the text after the space |
| SearchCommand.ChoiceDefault | src/commands/SearchCommand.ts:84-105 | with no space, or no engine word in front, Google gets the whole argument |
| OpenUrlCommand.AliasesLowerCase | src/commands/OpenUrlCommand.ts:11 | the aliases are declared in lower case |
| OpenUrlCommand.NormalizeUrl | src/commands/OpenUrlCommand.ts:33-49 | a parsing url is kept; otherwise "https://" is prepended only when that parses; the result parses if and only if the url or its https form does |
| OpenUrlCommand.SearchResults | src/commands/OpenUrlCommand.ts:51-79 | always exactly one row: help for a blank argument, open with the normalised url for a valid one, invalid otherwise |
| OpenUrlCommand.ExecuteSpec | src/commands/OpenUrlCommand.ts:81-121 | a blank argument fails with "Please provide a URL to open", an invalid one with "<arg> is not a valid URL"; a request is sent if and only if the argument is a valid url, it opens the normalised url; an answer closes the palette with "Opened: <url>" and fetches the tabs again, a runtime error fails with its message, a thrown error is raised |
| OpenUrlCommand.DomainOpensWithHttps | src/commands/OpenUrlCommand.ts:16-49 | a bare domain that parses only with a scheme is valid and opens as "https://" + domain |
| TabHistory.AddedToHistory | src/utils/tabHistory.ts:28-43 | the id is first and occurs once; the rest are the other ids in their old order, cut so the list holds at most 100; no id is invented |
| TabHistory.AddTwice | src/utils/tabHistory.ts:28-43 | adding the same id twice in a row gives the same list as adding it once |
| TabHistory.AddKeepsDistinct | src/utils/tabHistory.ts:32-35 | a history without repeats keeps none after an addition |
| TabHistory.PreviousTabId | src/utils/tabHistory.ts:50-62 | null exactly when the current id is absent or last; otherwise the element right after its first occurrence |
| TabHistory.PreviousAfterTwoVisits | src/utils/tabHistory.ts:28-62 | after visiting a then b, the tab before b is a |
| TabHistory.TabHistoryStore.constructor | src/utils/tabHistory.ts:10-13 | the stored history starts empty |
| TabHistory.TabHistoryStore.AddTabToHistory | src/utils/tabHistory.ts:28-43 | the filter, `unshift` and `slice` leave the stored list equal to `AddedToHistory` of the old one |
| TabHistory.TabHistoryStore.GetPreviousTabId | src/utils/tabHistory.ts:50-62 | the `indexOf` lookup returns `PreviousTabId` of the stored list |
| Background.Pushed | src/background.ts:121-138 | the new entry is first, no later entry has its tab, the rest are the old entries for other tabs in order, and the list holds at most 100 |
| Background.FilterOneEntryPerTab | src/background.ts:126 | filtering a history with one entry per tab keeps that property |
| Background.PushKeepsOneEntryPerTab | src/background.ts:121-134 | a push keeps the history at one entry per tab |
| Background.PreviousTab | src/background.ts:143-161 | the first entry, in history order, whose tab is not the current one and still exists; null exactly when there is none |
| Background.CleanedHistory | src/background.ts:166-179 | an order-keeping subsequence holding exactly the entries whose tab still exists |
| Background.FilterSameLength | src/background.ts:181 | a filter that removes nothing returns the list itself, so equal lengths mean nothing was removed |
| Background.CleanedAccessTimes | src/background.ts:210-222 | keeps exactly the existing tab ids with a truthy time, with their times unchanged |
| Background.WithAccessTimes | src/background.ts:280-283 | each tab paired with its access time, 0 when absent |
| Background.Insert | src/background.ts:286 | inserting into a list adds exactly that element, so the list grows by one |
| Background.InsertKeepsOrder | src/background.ts:286 | inserting into a most-recent-first list keeps it most-recent-first |
| Background.HeadAboveInsert | src/background.ts:286 | a head more recent than the inserted tab stays above the whole rest |
| Background.ConsKeepsOrder | src/background.ts:286 | a head at least as recent as every later tab keeps the order |
| Background.SortByRecency | src/background.ts:286 | the sort yields a permutation of its input, of the same length, ordered by non-increasing access time |
| Background.ListedTabs | src/background.ts:280-289 | GET_TABS returns min(n, 50) tabs, most recent first, drawn from the timed tabs |
| Background.ListedAreMostRecent | src/background.ts:286-289 | no tab cut by the limit of 50 is more recent than a tab that is listed |
| Background.Failed | src/background.ts:402 | a failed handler answer carrying its error |
| Background.CloseTabIds | src/background.ts:399 | `tabIds` when it is an array, else [tabId] when tabId is truthy, else none |
| Background.CloseTab | src/background.ts:397-415 | with no ids it fails with "No tab IDs provided" and removes nothing; otherwise it removes exactly those ids and reports the runtime error or their count |
| Background.UrlGroupsIds | src/background.ts:429-444 | after the first loop each normalised url holds exactly the ids of the considered tabs with that url, in query order |
| Background.UrlGroupsKeys | src/background.ts:429-444 | a url is a key of the map exactly when some considered tab has it |
| Background.SurplusIsAllButFirst | src/background.ts:448-456 | the second loop collects, for each url, every id but the first |
| Background.AllButFirstMembers | src/background.ts:429-456 | an id is closed exactly when it is a later id, not the first, of one of the urls |
| Background.AllButFirstSound | src/background.ts:448-456 | every closed id is a later id of one of the urls |
| Background.AllButFirstComplete | src/background.ts:448-456 | every later id of one of the urls is closed |
| Background.CreateTabGroup | src/background.ts:470-499 | missing or empty ids fail with "No tab IDs provided" before any Chrome call; otherwise the ids are grouped and the answer reports the group id and the name, or "Group <time>" when none is given, or Chrome's error |
| Background.DeleteTabGroup | src/background.ts:501-534 | a falsy group id fails with "No group ID provided" before any Chrome call; the group's tab ids are ungrouped if and only if the id is given and the query found tabs; a failed query fails with its error, an empty group with "No tabs found in group", a failed ungroup with its runtime error; otherwise success with "Ungrouped <n> tabs" |
| Background.TabIds | src/background.ts:517 | the ids of the tabs, in order |
| Background.Store.constructor | src/background.ts:106-109 | history and access times start empty |
| Background.Store.PushTabToHistory | src/background.ts:121-138 | the stored history becomes `Pushed` of the old one; access times are untouched |
| Background.Store.UpdateTabAccessTime | src/background.ts:190-197 | only this tab's access time changes, to the given time |
| Background.Store.GetPreviousTab | src/background.ts:143-161 | the loop returns `PreviousTab` of the stored history |
| Background.Store.CleanupTabHistory | src/background.ts:166-185 | the history becomes `CleanedHistory`, and it is saved exactly when an entry was removed |
| Background.Store.CleanupTabAccessTimes | src/background.ts:210-222 | the access times become `CleanedAccessTimes` of the old ones |
| Background.CloseDuplicateTabs | src/background.ts:422-468 | closes every considered tab but the first for each fragment-less url, in first-seen url order, and reports closedCount equal to the number closed |
| App.KeyDown | src/App.tsx:16-26 | a Shift press records its time and opens the palette when less than 300 ms passed since the previous one, never closing it; Escape closes it; other keys change nothing |
| App.ShiftNeverCloses | src/App.tsx:17-22 | a Shift press never closes an open palette |
| App.DoubleShiftOpens | src/App.tsx:17-22 | two Shift presses less than 300 ms apart open the palette, whatever came before |
| App.SlowShiftsStayClosed | src/App.tsx:17-22 | Shift presses 300 ms or more apart leave a closed palette closed |
| App.FirstShift | src/App.tsx:14-21 | with the last press time starting at 0, a first Shift opens the palette only before time 300 |
| App.EscapeCloses | src/App.tsx:23-25 | Escape closes the palette, whatever key came before |
| App.AppComponent.constructor | src/App.tsx:9-14 | closed, with the last Shift time at 0 |
| App.AppComponent.HandleKeyDown | src/App.tsx:16-26 | the handler updates the flag and the closure variable exactly as `KeyDown` |
| App.AppComponent.HandleClose | src/App.tsx:11 | `onClose` closes the palette and changes nothing else |
| KeybindingManager.Updated | src/keybindings/KeybindingManager.ts:63-65 | every field given in the update takes the new value and every other field keeps its old one |
| KeybindingManager.EmptyUpdate | src/keybindings/KeybindingManager.ts:63-65 | an update that supplies no field leaves the context as it was |
| KeybindingManager.UpdateIdempotent | src/keybindings/KeybindingManager.ts:63-65 | applying the same update twice is the same as applying it once |
| KeybindingManager.UnmodifiedMatchesOnlyPlain | src/keybindings/KeybindingManager.ts:111-114 | a handler with no modifiers matches only events with no modifier held, so plain Enter never matches Shift+Enter |
| KeybindingManager.MatchIgnoresCase | src/keybindings/KeybindingManager.ts:103-108 | key matching ignores letter case on both sides |
| KeybindingManager.MatchingBindings | src/keybindings/KeybindingManager.ts:79-81 | a handler is kept if and only if it is registered and matches the event, and the kept handlers keep registration order |
| KeybindingManager.Dispatch | src/keybindings/KeybindingManager.ts:77-96 | returns false exactly when some matching handler returns false; it then runs the first such handler in registration order, and none when it returns true |
| KeybindingManager.DispatchFirstFiring | src/keybindings/KeybindingManager.ts:84-92 | the first matching handler that returns false decides the event |
| KeybindingManager.DispatchIsRunOfMatching | src/keybindings/KeybindingManager.ts:79-95 | filtering the matching handlers first and then running them is the same as scanning all handlers |
| KeybindingManager.DispatchAppend | src/keybindings/KeybindingManager.ts:84-95 | handlers registered later are reached only when no earlier one fires |
| KeybindingManager.KeyHandler.Shape | src/keybindings/KeybindingManager.ts:5-12 | the key, modifier flags and callback of a handler object |
| KeybindingManager.KeyHandler.constructor | src/keybindings/KeybindingManager.ts:132-139 | a handler object holding exactly the given key, modifiers and callback |
| KeybindingManager.CreateHandler | src/keybindings/KeybindingManager.ts:122-140 | `createHandler` returns a new handler object with the given key, modifiers and callback |
| KeybindingManager.CreateHandlers | src/keybindings/NavigationKeys.ts:28-80 | one new, distinct handler object per binding, in order |
| KeybindingManager.Shapes | src/keybindings/KeybindingManager.ts:79-81 | the bindings of a handler list, in order |
| KeybindingManager.ShapesAppend | src/keybindings/KeybindingManager.ts:40 | the bindings of two handler lists are those of the first followed by those of the second |
| KeybindingManager.Manager.constructor | src/keybindings/KeybindingManager.ts:25-34 | no handlers; modal closed, not in command mode, no selection, no focus, activeItemIndex -1, totalItems 0 |
| KeybindingManager.Manager.Register | src/keybindings/KeybindingManager.ts:39-41 | appends the handler at the end; the context is untouched |
| KeybindingManager.Manager.Unregister | src/keybindings/KeybindingManager.ts:46-51 | removes the first identical handler object, and changes nothing when it is absent |
| KeybindingManager.Manager.Clear | src/keybindings/KeybindingManager.ts:56-58 | leaves no handlers and the context as it was |
| KeybindingManager.Manager.UpdateContext | src/keybindings/KeybindingManager.ts:63-65 | the context becomes `Updated` of the old one; the handlers are untouched |
| KeybindingManager.Manager.HandleKeyEvent | src/keybindings/KeybindingManager.ts:77-96 | the filter-then-loop returns exactly `Dispatch` over the registered handlers in the current context |
| KeybindingManager.CollectMatching | src/keybindings/KeybindingManager.ts:79-81 | the handler objects kept are, as bindings, exactly `MatchingBindings` of the registered ones |
| KeybindingManager.RunHandlers | src/keybindings/KeybindingManager.ts:84-95 | the loop returns false with the first action called, or true with none, exactly as `Run` over the matching handlers |
| KeybindingManager.MatchingAppend | src/keybindings/KeybindingManager.ts:79-81 | filtering two handler lists is filtering each in turn |
| NavigationKeys.NavigationGuard | src/keybindings/NavigationKeys.ts:29-80 | each navigation handler calls its own action (up, down, first, last, page up, page down) and returns false exactly when the modal is open with items; otherwise it returns undefined |
| NavigationKeys.NavigationNeedsNoModifier | src/keybindings/NavigationKeys.ts:29-80 | no navigation handler matches a key pressed with a modifier held, so Shift+ArrowDown is not handled |
| NavigationKeys.NavigationKeys.constructor | src/keybindings/NavigationKeys.ts:21-94 | six new handlers, registered at the end of the manager's list in the order up, down, home, end, pageup, pagedown |
| NavigationKeys.NavigationKeys.Destroy | src/keybindings/NavigationKeys.ts:99-102 | unregisters exactly these handlers, one by one, and empties the local list |
| SelectionKeys.SelectionNeedsOpenModal | src/keybindings/SelectionKeys.ts:31-122 | every selection handler does nothing while the modal is closed |
| SelectionKeys.OpenModalKeys | src/keybindings/SelectionKeys.ts:31-104 | with the modal open, Enter executes the selected row, backtick closes the palette, and Escape exits command mode when in it and closes otherwise |
| SelectionKeys.CommandModeActions | src/keybindings/SelectionKeys.ts:62-122 | toggle, select all, clear selection and execute current command fire only in command mode with the modal open and the input unfocused |
| SelectionKeys.NoEnterCommandModeInCommandMode | src/keybindings/SelectionKeys.ts:53-59 | no handler enters command mode while already in it: Tab has no binding there |
| SelectionKeys.ClearNeedsSelection | src/keybindings/SelectionKeys.ts:80-95 | Ctrl+D and Delete clear the selection only when something is selected |
| SelectionKeys.SelectionKeys.constructor | src/keybindings/SelectionKeys.ts:21-140 | ten new handlers, registered in the order enter, escape, backtick, tab, space, ctrl+a, ctrl+d, delete, shift+enter, ctrl+enter |
| SelectionKeys.SelectionKeys.Destroy | src/keybindings/SelectionKeys.ts:145-148 | unregisters exactly these handlers and empties the local list |
| KeybindingSystem.KeysLowerCase | src/keybindings/NavigationKeys.ts:29-74 | every bound key is written in lower case, so key matching only folds the event's key |
| KeybindingSystem.KeysDisjoint | src/keybindings/index.ts:30-31 | no key is bound in both the navigation group and the selection group |
| KeybindingSystem.NoSharedBinding | src/keybindings/index.ts:30-31 | no event matches a navigation handler and a selection handler at once |
| KeybindingSystem.ClosedHandlesNothing | src/keybindings/index.ts:29-31 | with the palette closed every key falls through: the event is not handled and default is not prevented |
| KeybindingSystem.MatchesByKey | src/keybindings/KeybindingManager.ts:103-108 | a handler matching an event is bound to the event's lower-cased key |
| KeybindingSystem.TabDoesNotFire | src/keybindings/SelectionKeys.ts:53-59 | in command mode no handler fires for Tab |
| KeybindingSystem.TabUnboundInCommandMode | src/keybindings/SelectionKeys.ts:53-59 | in command mode Tab is not handled at all |
| KeybindingSystem.BacktickCloses | src/keybindings/SelectionKeys.ts:98-104 | with the palette open, backtick closes the palette and does not close a tab |
| KeybindingSystem.EscapeRouting | src/keybindings/SelectionKeys.ts:40-50 | with the palette open, Escape exits command mode when in it and closes the palette otherwise |
| KeybindingSystem.ShiftArrowDownMatchesNothing | src/keybindings/NavigationKeys.ts:38-44 | no handler matches Shift+ArrowDown |
| KeybindingSystem.ShiftArrowDownUnhandled | src/keybindings/KeybindingManager.ts:111-114 | Shift+ArrowDown is not handled and default is not prevented |
| KeybindingSystem.ShiftEnter | src/keybindings/SelectionKeys.ts:107-113 | Shift+Enter executes the current command only in command mode with the input unfocused, and otherwise is not handled |
| KeybindingSystem.EnterExecutesSelected | src/keybindings/SelectionKeys.ts:31-37 | with the palette open, plain Enter always executes the selected row |
| KeybindingSystem.KeybindingSystem.constructor | src/keybindings/index.ts:25-37 | a fresh manager with the default context holding the six navigation handlers followed by the ten selection handlers, all distinct (the intended system: the source's names are unbound, see Left out) |
| KeybindingSystem.KeybindingSystem.Destroy | src/keybindings/index.ts:39-43 | leaves the manager and both groups with no handlers |
| KeybindingSystem.GroupsRemoveEverything | src/keybindings/index.ts:39-42 | unregistering the navigation handlers, then the selection handlers, from their concatenation leaves nothing |
| PaletteState.CurrentCommandOf | src/hooks/useCommandPalette.ts:91-99 | with a locked command the current command is the registered command of that id (none if unregistered); otherwise it is the command the query resolves to |
| PaletteState.LockedCommandIgnoresQuery | src/hooks/useCommandPalette.ts:91-94 | while a command is locked, changing the query never changes the current command |
| PaletteState.ResultsOf | src/hooks/useCommandPalette.ts:102-169 | with no current command, a blank query lists the first ten tabs in order and any other query lists at least one row |
| PaletteState.QueryRows | src/hooks/useCommandPalette.ts:130-168 | a blank query gives the first ten tabs, each as a tab row in order; a non-blank query never gives an empty list |
| PaletteState.SelectedTabsHidden | src/hooks/useCommandPalette.ts:113-127 | in command mode the rows are the command's results minus the tab rows of selected tabs; every non-tab row is kept |
| PaletteState.FilterDropsSelected | src/hooks/useCommandPalette.ts:118-125 | the filter keeps exactly the rows that are not tab rows of selected tabs |
| PaletteState.CommandResultsUnfiltered | src/hooks/useCommandPalette.ts:113-127 | outside command mode the rows are exactly the current command's search results |
| PaletteState.SuggestionShape | src/hooks/useCommandPalette.ts:141 | every command suggestion is an action row whose id ends in "-suggestion" |
| PaletteState.SuggestionsThenTabs | src/hooks/useCommandPalette.ts:140-168 | suggestions come first, then at most five tab rows that match the lower-cased query, then at most one more row |
| PaletteState.NoCommandRows | src/hooks/useCommandPalette.ts:140-168 | the rows are the suggestions, then the matching tabs, then the Google fallback exactly when there are no suggestions |
| PaletteState.TabsAfterSuggestions | src/hooks/useCommandPalette.ts:145-167 | after the suggestion prefix come only matching tabs, at most five, and at most one trailing non-tab row |
| PaletteState.FallbackOnlyWithoutSuggestions | src/hooks/useCommandPalette.ts:157-165 | the last row is the Google fallback exactly when no command was suggested |
| PaletteState.AliasesNonEmpty | src/commands/CommandRegistry.ts:20 | no built-in command declares an empty alias |
| PaletteState.AliasKeysNonEmpty | src/commands/CommandRegistry.ts:18-22 | after initialisation no alias key is the empty string |
| PaletteState.AliasWriteNonEmpty | src/commands/CommandRegistry.ts:20 | every alias written during initialisation is non-empty |
| PaletteState.BlankQueryShowsNothing | src/hooks/useCommandPalette.ts:91-138 | after initialisation, a blank query with no locked command resolves to previous_tab, and the list has no rows |
| PaletteState.BlankQueryFirstCommand | src/hooks/useCommandPalette.ts:96-127 | when previous_tab is registered first and no alias is empty, a blank query resolves to previous_tab and yields no rows |
| PaletteState.ResultsOfCommand | src/hooks/useCommandPalette.ts:113-127 | with a current command, the rows are that command's search results after the command-mode filter |
| PaletteState.PreviousTabListsNothing | src/hooks/useCommandPalette.ts:113-127 | the previous-tab command contributes no rows in any state |
| PaletteState.FirstRegistered | src/commands/index.ts:31-42 | after initialisation the first registered command is previous_tab |
| PaletteState.PreviousTabWrittenOnce | src/commands/index.ts:31-42 | previous_tab is written first, and no later write uses its id |
| PaletteState.Toggled | src/hooks/useCommandPalette.ts:172-182 | toggling flips the membership of the given id and leaves every other id as it was |
| PaletteState.ToggleTwice | src/hooks/useCommandPalette.ts:172-182 | toggling the same id twice restores the selection |
| PaletteState.ToggleCommutes | src/hooks/useCommandPalette.ts:172-182 | toggling two ids gives the same selection in either order |
| PaletteState.TabIdSet | src/hooks/useCommandPalette.ts:188-191 | the select-all set holds exactly the ids of the tabs |
| PaletteState.SelectAllCoversTabs | src/hooks/useCommandPalette.ts:188-191 | after select-all every listed tab is selected |
| PaletteState.AfterExecution | src/hooks/useCommandPalette.ts:211-224 | a failed result, or one that does not ask for command mode, leaves the view unchanged; otherwise command mode is on and the active command is the new name, if one is given |
| PaletteState.NeedsInputIgnored | src/hooks/useCommandPalette.ts:211-224 | the needsInput and inputConfig fields of a result have no effect on the palette |
| PaletteState.AfterExecutionKeepsCommandMode | src/hooks/useCommandPalette.ts:211-224 | executing a command never leaves command mode |
| PaletteState.ResetView | src/hooks/useCommandPalette.ts:239-245 | reset restores the initial view but keeps the fetched tabs and tab groups |
| PaletteState.ResetIdempotent | src/hooks/useCommandPalette.ts:239-245 | resetting twice is the same as resetting once |
| PaletteState.Palette.constructor | src/hooks/useCommandPalette.ts:44-55 | starts from the initial view and registers every built-in command's id and aliases in the registry |
| PaletteState.Palette.SetQuery | src/hooks/useCommandPalette.ts:63-66 | changes only the query |
| PaletteState.Palette.SetActiveItemIndex | src/hooks/useCommandPalette.ts:52 | changes only the cursor |
| PaletteState.Palette.SetCommandMode | src/hooks/useCommandPalette.ts:53 | changes only the command-mode flag |
| PaletteState.Palette.SetActiveCommand | src/hooks/useCommandPalette.ts:54 | changes only the locked command |
| PaletteState.Palette.FetchTabs | src/hooks/useCommandPalette.ts:69-74 | a reply replaces the tabs; no reply leaves the state unchanged |
| PaletteState.Palette.FetchTabGroups | src/hooks/useCommandPalette.ts:77-82 | a reply replaces the tab groups; no reply leaves the state unchanged |
| PaletteState.Palette.ToggleTabSelection | src/hooks/useCommandPalette.ts:172-182 | the selection becomes the toggled selection, and nothing else changes |
| PaletteState.Palette.ClearSelection | src/hooks/useCommandPalette.ts:184-186 | the selection becomes empty, and nothing else changes |
| PaletteState.Palette.SelectAll | src/hooks/useCommandPalette.ts:188-191 | the selection becomes the ids of the current tabs, and nothing else changes |
| PaletteState.Palette.ExecuteCommand | src/hooks/useCommandPalette.ts:194-228 | sends the registry's request for the current state, closes exactly when the result asks to, reports which of `fetchTabs` and `fetchTabGroups` the command called, and applies the result to the view |
| PaletteState.Palette.ExecuteCurrentCommand | src/hooks/useCommandPalette.ts:231-236 | with no current command nothing happens and nothing is fetched; otherwise the current command is executed by its id |
| PaletteState.Palette.Reset | src/hooks/useCommandPalette.ts:239-245 | the state becomes the reset view |
| PaletteNew.MoveUp | src/components/CommandPaletteNew.tsx:46-48 | the cursor never goes below zero, and above zero it moves up by one |
| PaletteNew.MoveDown | src/components/CommandPaletteNew.tsx:50-52 | the cursor never passes the last row, and before the last row it moves down by one |
| PaletteNew.MoveToLast | src/components/CommandPaletteNew.tsx:58-60 | the cursor is never negative, and on a non-empty list it lands on the last row |
| PaletteNew.PageUp | src/components/CommandPaletteNew.tsx:62-64 | the cursor never goes below zero, and moves up ten rows when there are ten above it |
| PaletteNew.PageDown | src/components/CommandPaletteNew.tsx:66-68 | the cursor never passes the last row, and moves down ten rows when there are ten below it |
| PaletteNew.CursorStaysOnRows | src/components/CommandPaletteNew.tsx:46-68 | from a cursor on a row, every move lands on a row |
| PaletteNew.CursorClamps | src/components/CommandPaletteNew.tsx:46-68 | moving up from the first row or down from the last row keeps the cursor where it is |
| PaletteNew.MoveDownOnEmpty | src/components/CommandPaletteNew.tsx:50-52 | on an empty list, moving down puts the cursor at -1 |
| PaletteNew.UpDownInverse | src/components/CommandPaletteNew.tsx:46-68 | away from the ends, a move down undoes a move up and the reverse holds; the same is true for a page up and a page down |
| PaletteNew.RunEffect | src/components/CommandPaletteNew.tsx:120-123 | running a row's action sends a message exactly when the row has an action |
| PaletteNew.RowAt | src/components/CommandPaletteNew.tsx:75-80 | the active row exists exactly when the cursor is inside the list, and it is one of the rows |
| PaletteNew.EnterCommandModeWith | src/components/CommandPaletteNew.tsx:111-118 | command mode is on, the command is locked, and the query and selection are cleared; tabs, groups and cursor are kept |
| PaletteNew.ExitCommandMode | src/components/CommandPaletteNew.tsx:152-156 | command mode is off, no command is locked and the selection is cleared; query, tabs, groups and cursor are kept |
| PaletteNew.EnteringLocksCommand | src/components/CommandPaletteNew.tsx:111-118 | after command mode is entered, the current command is the entered one, whatever the user then types |
| PaletteNew.ExitingUnlocksCommand | src/components/CommandPaletteNew.tsx:152-156 | after command mode is left, the current command is the one the query resolves to |
| PaletteNew.EnterThenExit | src/components/CommandPaletteNew.tsx:111-118 | entering and then leaving command mode gives the original view with an empty query, no locked command and no selection |
| PaletteNew.SuggestedCommand | src/components/CommandPaletteNew.tsx:100-102 | a current command wins over the command named by the suggestion id |
| PaletteNew.StripSuggestion | src/components/CommandPaletteNew.tsx:100 | removing "-suggestion" from a suggestion id gives back a dash-free command id |
| PaletteNew.IdHasNoDash | src/components/CommandPaletteNew.tsx:100 | no built-in command id contains a dash, so only the suffix is removed |
| PaletteNew.SuggestionRunsItsCommand | src/components/CommandPaletteNew.tsx:97-105 | with no current command, a suggestion row's id leads back to its own registered command |
| PaletteNew.ActivationOf | src/components/CommandPaletteNew.tsx:71-134 | with no active row nothing happens; tabs, groups and cursor are never changed; switching to or closing a tab closes the palette and leaves the view unchanged |
| PaletteNew.RowActivation | src/components/CommandPaletteNew.tsx:77-133 | activating no row does nothing; tabs, groups and cursor are kept; a switch or a close request always closes the palette |
| PaletteNew.TabActivation | src/components/CommandPaletteNew.tsx:82-93 | a tab row can change the selection and nothing else |
| PaletteNew.ActionActivation | src/components/CommandPaletteNew.tsx:94-126 | an action row keeps tabs, groups and cursor and never sends a switch or close request |
| PaletteNew.CommandActivation | src/components/CommandPaletteNew.tsx:105-119 | running a suggested command keeps tabs, groups and cursor and never sends a switch or close request |
| PaletteNew.EnterTogglesInMultiSelect | src/components/CommandPaletteNew.tsx:82-85 | on a tab row, in command mode with a multi-select command, Enter toggles that tab's selection, sends nothing and keeps the palette open |
| PaletteNew.EnterSwitchesToTab | src/components/CommandPaletteNew.tsx:86-92 | on a tab row, outside multi-select command mode, Enter switches to that tab and closes the palette |
| PaletteNew.EnterLocksCommandModeCommand | src/components/CommandPaletteNew.tsx:111-118 | on a suggestion for a command-mode command, Enter enters command mode with that command locked |
| PaletteNew.EnterRunsSingleExecution | src/components/CommandPaletteNew.tsx:107-110 | on a suggestion for a single-execution command, Enter executes that command with the current context |
| PaletteNew.EnterOnFallbackSearches | src/hooks/useCommandPalette.ts:157-165 | on the Google fallback row, Enter opens the Google search URL for the query and keeps the palette open |
| PaletteNew.HandleMoveUp | src/components/CommandPaletteNew.tsx:46-48 | only the cursor changes, and it becomes the move-up cursor |
| PaletteNew.HandleMoveDown | src/components/CommandPaletteNew.tsx:50-52 | only the cursor changes, and it becomes the move-down cursor for the current number of rows |
| PaletteNew.HandleMoveToFirst | src/components/CommandPaletteNew.tsx:54-56 | only the cursor changes, and it becomes zero |
| PaletteNew.HandleMoveToLast | src/components/CommandPaletteNew.tsx:58-60 | only the cursor changes, and it moves to the last row |
| PaletteNew.HandlePageUp | src/components/CommandPaletteNew.tsx:62-64 | only the cursor changes, and it moves one page up |
| PaletteNew.HandlePageDown | src/components/CommandPaletteNew.tsx:66-68 | only the cursor changes, and it moves one page down |
| PaletteNew.HandleExecuteSelected | src/components/CommandPaletteNew.tsx:71-134 | the message, the closing, the refetched lists and the new state are those of activating the row under the cursor |
| PaletteNew.ActivateRow | src/components/CommandPaletteNew.tsx:77-133 | the message, the closing, the refetched lists and the new state are those of activating the given row |
| PaletteNew.ActivateTab | src/components/CommandPaletteNew.tsx:82-93 | the message, the closing, the refetched lists and the new state are those of activating the tab row |
| PaletteNew.ActivateAction | src/components/CommandPaletteNew.tsx:94-126 | the message, the closing, the refetched lists and the new state are those of activating the action row |
| PaletteNew.ActivateCommand | src/components/CommandPaletteNew.tsx:105-119 | the message, the closing, the refetched lists and the new state are those of running the suggested command |
| PaletteNew.HandleToggleSelection | src/components/CommandPaletteNew.tsx:136-141 | on a tab row, that tab's selection is toggled; on any other row, or none, nothing changes |
| PaletteNew.HandleEnterCommandMode | src/components/CommandPaletteNew.tsx:143-150 | a current command-mode command is locked into command mode; otherwise nothing changes |
| PaletteNew.HandleExitCommandMode | src/components/CommandPaletteNew.tsx:152-156 | the state becomes the view with command mode left |
| PaletteNew.HandleCloseModal | src/components/CommandPaletteNew.tsx:158-161 | closes the palette and resets the view |
| PaletteNew.ResultsIgnoreCursor | src/components/CommandPaletteNew.tsx:191-194 | moving the cursor never changes the rows, so the reset effect does not fire on cursor moves |
| PaletteNew.ResetIndexOnNewResults | src/components/CommandPaletteNew.tsx:191-194 | when the rows differ from those shown, the cursor goes back to zero; otherwise nothing changes |
| PaletteLegacy.StripEngineWord | src/components/CommandPalette.tsx:42 | the stripped query is a suffix of the query |
| PaletteLegacy.StripEngineWordMeaning | src/components/CommandPalette.tsx:42 | for every query: it is changed if and only if it starts with "g" or "google" followed by whitespace; then exactly such a prefix is dropped, with the whole whitespace run after the word |
| PaletteLegacy.StripShortEngineWord | src/components/CommandPalette.tsx:41-42 | "g " followed by a term strips to the term |
| PaletteLegacy.StripLongEngineWord | src/components/CommandPalette.tsx:41-42 | "google " followed by a term strips to the term |
| PaletteLegacy.LegacyResults | src/components/CommandPalette.tsx:40-67 | a Google query gives one Google row; otherwise a dotted query with no space gives one URL row; an empty query lists every tab; anything else lists the fuzzy matches |
| PaletteLegacy.GoogleExcludesUrl | src/components/CommandPalette.tsx:41-52 | a Google query is never taken for a URL |
| PaletteLegacy.GoogleIsCaseSensitive | src/components/CommandPalette.tsx:41 | "G " and "Google " do not start a Google search |
| PaletteLegacy.BlankIsFuzzy | src/components/CommandPalette.tsx:61-65 | a query of one space is not empty, so it goes to the fuzzy search |
| PaletteLegacy.Click | src/components/CommandPalette.tsx:69-76 | clicking a tab row switches to that tab; clicking an action row sends the row's own message |
| PaletteLegacy.ClickGoogleRow | src/components/CommandPalette.tsx:41-48 | clicking the Google row opens the Google search URL for the stripped query |
| PaletteLegacy.LegacyPalette.constructor | src/components/CommandPalette.tsx:25-26 | starts with no tabs and an empty query |
| PaletteLegacy.LegacyPalette.SetQuery | src/components/CommandPalette.tsx:98 | replaces the query and keeps the tabs |
| PaletteLegacy.LegacyPalette.FetchTabs | src/components/CommandPalette.tsx:28-36 | after a runtime error the tabs are kept; otherwise they become the reply, or none if there is no reply |
| PaletteLegacy.LegacyPalette.HandleItemClick | src/components/CommandPalette.tsx:69-76 | sends the click's message and always closes the palette |
| PaletteLegacy.LegacyPalette.HandleCloseTab | src/components/CommandPalette.tsx:78-81 | sends a close request for the tab, leaves the palette open, and fetches the tabs again whatever the reply |

## Left out

- Chrome and storage I/O: every `chrome.*` call and every storage read or write is an input. A Chrome reply is a `Reply` value: an answer, a runtime error or an exception. Listener registration and message passing are not modelled.
- Content-script injection, `safeSendResponse` and `isPortOpen` in src/background.ts are plumbing and are not modelled.
- The GET_PREVIOUS_TAB, SWITCH_TO_TAB, OPEN_URL, CLOSE_CURRENT_TAB and GET_TAB_GROUPS handlers only forward a Chrome call. Their list logic (`getPreviousTab`) is modelled; the calls are not.
- The GET_TABS catch branch, which answers with the unsorted tabs when a storage read throws, is not modelled: storage is an input value.
- URL parsing (`new URL`) is the parameter `parses`. Removing the hash in CLOSE_DUPLICATE_TABS is the parameter `strip`. `encodeURIComponent` and `toLocaleTimeString` are parameters too.
- Fuse.js fuzzy search in the earlier palette is the parameter `fuzzy`.
- Timers are not modelled: `debounce` in `setQuery` only repeats the immediate update later. `Date.now()` is a parameter of each Shift press.
- `toLowerCase` folds only ASCII letters. `trim` and the `\s` class strip only ASCII whitespace.
- React scheduling is not modelled: memo and effect timing, and stale closures between renders. Each handler reads the current state. Scroll-into-view and autofocus effects are left out.
- PaletteNew.ResetIndexOnNewResults: the cursor is reset when the rows change in content. React resets it whenever the `searchResults` memo yields a new array, that is, whenever one of its inputs changes, even if the rows stay equal (a locked previous_tab command keeps showing no rows while the query is edited, and React still moves the cursor to 0). Memo identity is not modelled.
- The tab ids of CLOSE_TAB and CREATE_TAB_GROUP are a set. `Array.from(selectedTabIds)` sends them in insertion order, and that order is not modelled.
- The refresh after a command is recorded as which lists it asks for (`Refresh`). The GET_TABS and GET_TAB_GROUPS answers arrive later, and the model applies them through `Palette.FetchTabs` and `Palette.FetchTabGroups` with their own reply.
- KeybindingSystem.KeybindingSystem.constructor: src/keybindings/index.ts:5-7 only re-exports `KeybindingManager`, `NavigationKeys` and `SelectionKeys` with `export { … } from`, which binds no local name. So the `new KeybindingManager()`, `new NavigationKeys(...)` and `new SelectionKeys(...)` at index.ts:29-31 refer to unbound names, and so do the types `NavigationActions` and `SelectionActions` at :26-27. The TypeScript compiler rejects the file, and a transpiled `createKeybindingSystem` would throw a ReferenceError. The constructor models the evident intent, the manager built from the three classes, and not that failure.
- `useKeyboardNavigation` wires DOM listeners and detects focus. `isInputFocused` is an input field of the context. The selection actions that hook builds (src/hooks/useKeyboardNavigation.ts:45-53) have no `executeCurrentCommand`. So when the Shift+Enter or Ctrl+Enter guard holds, the handler's call to it (src/keybindings/SelectionKeys.ts:110, :119) throws a TypeError before `return false`: `preventDefault` is never called and the error escapes the keydown listener. `KeybindingSystem.ShiftEnter` and `SelectionKeys.CommandModeActions` describe these bindings as if the action were supplied; the missing field and the thrown error are not modelled.
- Console logging is not modelled.
- The rendering components, src/contexts/AppContext.tsx and src/content.tsx are not part of this model. Neither is src/config/CommandConfig.ts, which is never imported and does not compile.
- Background.SortByRecency: states a permutation ordered by non-increasing access time but not the stability of `Array.prototype.sort`; ties may come out in any order.
- Background.ListedTabs: inherits the same gap, so the order among tabs with equal access times is not stated.
- SearchCommand.NamedEngine: states that the engine found matches the word and that none is found only when no engine matches; it does not state that the engine is the first such in table order.
