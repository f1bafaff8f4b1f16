/**
 * `initializeCommands` (src/commands/index.ts): registers nine commands,
 * in a fixed order, in the shared registry.
 */
module CommandIndex {
  import opened Wrappers
  import opened Strings
  import opened Seqs
  import opened BaseCommand
  import opened Commands
  import opened CommandRegistry
  import PreviousTabCommand
  import CloseDuplicateTabsCommand
  import CloseTabCommand
  import CloseMultipleTabsCommand
  import NewTabCommand
  import CreateTabGroupCommand
  import DeleteTabGroupCommand
  import SearchCommand
  import OpenUrlCommand
  import CloseCurrentTabCommand

  /** The registration order; `close_current` is not registered. */
  const Order: seq<Kind> := [PreviousTab, CloseDuplicates, CloseSingle, CloseMultiple, NewTab, GroupTabs, DeleteGroup, Search, Url]

  /** The command objects `initializeCommands` creates, in order. */
  const Registrations: seq<Command> := seq(|Order|, i requires 0 <= i < |Order| => Make(Order[i]))

  /** The `commands.set` calls of registering `cs` in turn. */
  function IdWrites(cs: seq<Command>): (ops: seq<(string, Command)>)
    ensures |ops| == |cs|
  {
    seq(|cs|, i requires 0 <= i < |cs| => (cs[i].info.id, cs[i]))
  }

  /** The `commandsByAlias.set` calls of registering `cs` in turn. */
  function AliasWritesOf(cs: seq<Command>): seq<(string, Command)>
    decreases |cs|
  {
    if cs == [] then [] else AliasWritesOf(cs[..|cs| - 1]) + AliasWrites(cs[|cs| - 1])
  }

  /** One more `register` call extends both write sequences. */
  lemma RegisterStep(c0: OrderedMap<string, Command>, a0: OrderedMap<string, Command>, cs: seq<Command>, c: Command)
    requires c0.Valid() && a0.Valid()
    ensures PutAll(c0, IdWrites(cs)).Put(c.info.id, c) == PutAll(c0, IdWrites(cs + [c]))
    ensures PutAll(PutAll(a0, AliasWritesOf(cs)), AliasWrites(c)) == PutAll(a0, AliasWritesOf(cs + [c]))
  {
    assert (cs + [c])[..|cs|] == cs;
    assert IdWrites(cs + [c])[..|cs|] == IdWrites(cs);
    PutAllAppend(a0, AliasWritesOf(cs), AliasWrites(c));
  }

  /** `s[..j]` followed by `s[j]` is `s[..j + 1]`. */
  lemma PrefixStep<T>(s: seq<T>, j: nat)
    requires j < |s|
    ensures s[..j] + [s[j]] == s[..j + 1]
  {
  }

  /** One `register` call of `initializeCommands`, after the calls for `done`. */
  method RegisterNext(registry: Registry, ghost c0: OrderedMap<string, Command>, ghost a0: OrderedMap<string, Command>,
                      ghost done: seq<Command>, c: Command)
    requires registry.Valid() && c0.Valid() && a0.Valid()
    requires registry.commands == PutAll(c0, IdWrites(done))
    requires registry.byAlias == PutAll(a0, AliasWritesOf(done))
    modifies registry
    ensures registry.Valid()
    ensures registry.commands == PutAll(c0, IdWrites(done + [c]))
    ensures registry.byAlias == PutAll(a0, AliasWritesOf(done + [c]))
  {
    registry.Register(c);
    RegisterStep(c0, a0, done, c);
  }

  /**
   * `initializeCommands()`: the nine `register` calls, written as one call
   * per entry of `Registrations`; the two maps end up with every id and
   * every lower-cased alias written in that order.
   */
  method InitializeCommands(registry: Registry)
    requires registry.Valid()
    modifies registry
    ensures registry.Valid()
    ensures registry.commands == PutAll(old(registry.commands), IdWrites(Registrations))
    ensures registry.byAlias == PutAll(old(registry.byAlias), AliasWritesOf(Registrations))
  {
    ghost var c0 := registry.commands;
    ghost var a0 := registry.byAlias;
    for j := 0 to |Registrations|
      invariant registry.Valid()
      invariant registry.commands == PutAll(c0, IdWrites(Registrations[..j]))
      invariant registry.byAlias == PutAll(a0, AliasWritesOf(Registrations[..j]))
    {
      RegisterNext(registry, c0, a0, Registrations[..j], Registrations[j]);
      PrefixStep(Registrations, j);
    }
    assert Registrations[..|Registrations|] == Registrations;
  }

  /** Initialising a second time leaves both maps, key order included, as they were. */
  lemma InitializeTwice(c0: OrderedMap<string, Command>, a0: OrderedMap<string, Command>)
    requires c0.Valid() && a0.Valid()
    ensures PutAll(PutAll(c0, IdWrites(Registrations)), IdWrites(Registrations)) == PutAll(c0, IdWrites(Registrations))
    ensures PutAll(PutAll(a0, AliasWritesOf(Registrations)), AliasWritesOf(Registrations)) == PutAll(a0, AliasWritesOf(Registrations))
  {
    PutAllTwice(c0, IdWrites(Registrations));
    PutAllTwice(a0, AliasWritesOf(Registrations));
  }

  /** The ids of the registered commands, in registration order. */
  const Ids: seq<string> := ["previous_tab", "close_duplicates", "close_single", "close_multiple", "new_tab", "group_tabs", "delete_group", "search", "url"]

  /** From an empty map, the id map lists the nine ids in registration order. */
  lemma InitialIds(m: OrderedMap<string, Command>)
    requires m.Valid() && m.keys == []
    ensures PutAll(m, IdWrites(Registrations)).keys == Ids
  {
    var ops := IdWrites(Registrations);
    assert KeysOf(ops) == Ids;
    PutAllKeysFresh(m, ops);
  }

  /** Two commands declare a common alias. */
  ghost predicate ShareAlias(a: CommandInfo, b: CommandInfo)
  {
    exists i, j :: 0 <= i < |a.aliases| && 0 <= j < |b.aliases| && a.aliases[i] == b.aliases[j]
  }

  lemma PreviousTabSharesNoAlias(b: Kind)
    requires b in Order && b != PreviousTab
    ensures !ShareAlias(Info(PreviousTab), Info(b))
  {
  }

  lemma CloseDuplicatesSharesNoAlias(b: Kind)
    requires b in Order && b != CloseDuplicates
    ensures !ShareAlias(Info(CloseDuplicates), Info(b))
  {
  }

  lemma CloseSingleSharesNoAlias(b: Kind)
    requires b in Order && b != CloseSingle
    ensures !ShareAlias(Info(CloseSingle), Info(b))
  {
  }

  lemma CloseMultipleSharesNoAlias(b: Kind)
    requires b in Order && b != CloseMultiple
    ensures !ShareAlias(Info(CloseMultiple), Info(b))
  {
  }

  lemma NewTabSharesNoAlias(b: Kind)
    requires b in Order && b != NewTab
    ensures !ShareAlias(Info(NewTab), Info(b))
  {
  }

  lemma GroupTabsSharesNoAlias(b: Kind)
    requires b in Order && b != GroupTabs
    ensures !ShareAlias(Info(GroupTabs), Info(b))
  {
  }

  lemma DeleteGroupSharesNoAlias(b: Kind)
    requires b in Order && b != DeleteGroup
    ensures !ShareAlias(Info(DeleteGroup), Info(b))
  {
  }

  lemma SearchSharesNoAlias(b: Kind)
    requires b in Order && b != Search
    ensures !ShareAlias(Info(Search), Info(b))
  {
  }

  lemma UrlSharesNoAlias(b: Kind)
    requires b in Order && b != Url
    ensures !ShareAlias(Info(Url), Info(b))
  {
  }

  /** No alias string is declared by two registered commands. */
  lemma NoSharedAlias(a: Kind, b: Kind)
    requires a in Order && b in Order && a != b
    ensures !ShareAlias(Info(a), Info(b))
  {
    match a
    case PreviousTab => PreviousTabSharesNoAlias(b);
    case CloseDuplicates => CloseDuplicatesSharesNoAlias(b);
    case CloseSingle => CloseSingleSharesNoAlias(b);
    case CloseMultiple => CloseMultipleSharesNoAlias(b);
    case NewTab => NewTabSharesNoAlias(b);
    case GroupTabs => GroupTabsSharesNoAlias(b);
    case DeleteGroup => DeleteGroupSharesNoAlias(b);
    case Search => SearchSharesNoAlias(b);
    case Url => UrlSharesNoAlias(b);
  }

  /** Every alias of every command is declared in lower case. */
  lemma AliasesLowerCase(k: Kind)
    ensures forall i :: 0 <= i < |Info(k).aliases| ==> IsLower(Info(k).aliases[i])
  {
    match k
    case PreviousTab => PreviousTabCommand.AliasesLowerCase();
    case CloseDuplicates => CloseDuplicateTabsCommand.AliasesLowerCase();
    case CloseSingle => CloseTabCommand.AliasesLowerCase();
    case CloseMultiple => CloseMultipleTabsCommand.AliasesLowerCase();
    case NewTab => NewTabCommand.AliasesLowerCase();
    case GroupTabs => CreateTabGroupCommand.AliasesLowerCase();
    case DeleteGroup => DeleteTabGroupCommand.AliasesLowerCase();
    case Search => SearchCommand.AliasesLowerCase();
    case Url => OpenUrlCommand.AliasesLowerCase();
    case CloseCurrent => CloseCurrentTabCommand.AliasesLowerCase();
  }

  /** All aliases of `c` are lower-case. */
  ghost predicate LowerAliases(c: Command)
  {
    forall j :: 0 <= j < |c.info.aliases| ==> IsLower(c.info.aliases[j])
  }

  /**
   * After registering `cs` in turn, an alias of `cs[x]` that no later command
   * declares is bound to `cs[x]`.
   */
  lemma {:induction false} AliasBound(m: OrderedMap<string, Command>, cs: seq<Command>, x: nat, i: nat)
    requires m.Valid() && x < |cs| && i < |cs[x].info.aliases|
    requires forall y :: x < y < |cs| ==> !ShareAlias(cs[x].info, cs[y].info)
    requires forall y :: 0 <= y < |cs| ==> LowerAliases(cs[y])
    ensures PutAll(m, AliasWritesOf(cs)).Get(cs[x].info.aliases[i]) == Some(cs[x])
    decreases |cs|
  {
    var n := |cs| - 1;
    var init := cs[..n];
    var key := cs[x].info.aliases[i];
    var before := PutAll(m, AliasWritesOf(init));
    assert AliasWritesOf(cs) == AliasWritesOf(init) + AliasWrites(cs[n]);
    PutAllAppend(m, AliasWritesOf(init), AliasWrites(cs[n]));
    if x == n {
      assert LowerAliases(cs[n]);
      LowerOfLower(key);
      assert Lower(cs[n].info.aliases[i]) == key;
      AliasWritesBind(before, cs[n], key);
    } else {
      assert LowerAliases(cs[n]);
      forall j | 0 <= j < |cs[n].info.aliases| ensures Lower(cs[n].info.aliases[j]) != key {
        LowerOfLower(cs[n].info.aliases[j]);
      }
      AliasWritesBind(before, cs[n], key);
      AliasBound(m, init, x, i);
    }
  }

  /**
   * Registering the nine commands overwrites no alias: each alias of each
   * registered command is bound to that command.
   */
  lemma InitialAliases(m: OrderedMap<string, Command>, x: nat, i: nat)
    requires m.Valid() && x < |Registrations| && i < |Registrations[x].info.aliases|
    ensures PutAll(m, AliasWritesOf(Registrations)).Get(Registrations[x].info.aliases[i]) == Some(Registrations[x])
  {
    forall y | x < y < |Registrations| ensures !ShareAlias(Registrations[x].info, Registrations[y].info) {
      NoSharedAlias(Order[x], Order[y]);
    }
    forall y | 0 <= y < |Registrations| ensures LowerAliases(Registrations[y]) {
      AliasesLowerCase(Order[y]);
    }
    AliasBound(m, Registrations, x, i);
  }

  /**
   * A query that normalises to "close tabs" resolves to `close_multiple`,
   * whose first alias it is.
   */
  lemma CloseTabsExact(c0: OrderedMap<string, Command>, a0: OrderedMap<string, Command>, query: string)
    requires c0.Valid() && a0.Valid()
    requires NormaliseQuery(query) == "close tabs"
    ensures Resolve(PutAll(c0, IdWrites(Registrations)), PutAll(a0, AliasWritesOf(Registrations)), query)
      == Some(Make(CloseMultiple))
  {
    var byAlias := PutAll(a0, AliasWritesOf(Registrations));
    FourthIsCloseMultiple();
    InitialAliases(a0, 3, 0);
    AliasTierExact(byAlias, "close tabs");
    ResolveTiers(PutAll(c0, IdWrites(Registrations)), byAlias, query);
  }

  lemma FourthIsCloseMultiple()
    ensures Registrations[3] == Make(CloseMultiple) && Registrations[3].info.aliases[0] == "close tabs"
  {
  }

  lemma {:induction false} AliasWritesOfAppend(a: seq<Command>, b: seq<Command>)
    ensures AliasWritesOf(a + b) == AliasWritesOf(a) + AliasWritesOf(b)
    decreases |b|
  {
    if b == [] {
      assert a + b == a;
    } else {
      var n := |b| - 1;
      var ab := a + b;
      assert ab[..|ab| - 1] == a + b[..n];
      assert ab[|ab| - 1] == b[n];
      AliasWritesOfAppend(a, b[..n]);
      calc {
        AliasWritesOf(ab);
        AliasWritesOf(a + b[..n]) + AliasWrites(b[n]);
        (AliasWritesOf(a) + AliasWritesOf(b[..n])) + AliasWrites(b[n]);
        { AppendAssoc(AliasWritesOf(a), AliasWritesOf(b[..n]), AliasWrites(b[n])); }
        AliasWritesOf(a) + (AliasWritesOf(b[..n]) + AliasWrites(b[n]));
        AliasWritesOf(a) + AliasWritesOf(b);
      }
    }
  }

  /** The writes of `register(c)` carry its aliases as declared, when they are lower-case. */
  lemma AliasWritesKeys(c: Command)
    requires LowerAliases(c)
    ensures KeysOf(AliasWrites(c)) == c.info.aliases
  {
    forall j | 0 <= j < |c.info.aliases| ensures Lower(c.info.aliases[j]) == c.info.aliases[j] {
      LowerOfLower(c.info.aliases[j]);
    }
  }

  /** Every write of registering `cs` binds a lower-cased alias of one of them. */
  lemma {:induction false} AliasWritesOfMembers(cs: seq<Command>, p: (string, Command))
    requires p in AliasWritesOf(cs)
    ensures exists x, i :: 0 <= x < |cs| && 0 <= i < |cs[x].info.aliases| && p.0 == Lower(cs[x].info.aliases[i])
    decreases |cs|
  {
    var n := |cs| - 1;
    if p in AliasWritesOf(cs[..n]) {
      AliasWritesOfMembers(cs[..n], p);
      var x, i :| 0 <= x < n && 0 <= i < |cs[..n][x].info.aliases| && p.0 == Lower(cs[..n][x].info.aliases[i]);
      assert cs[..n][x] == cs[x];
    } else {
      var k :| 0 <= k < |AliasWrites(cs[n])| && AliasWrites(cs[n])[k] == p;
      assert p.0 == Lower(cs[n].info.aliases[k]);
    }
  }

  /**
   * Writing `ops` into an empty map: the first key of the map's order that
   * prefixes the query is the first such key among the writes.
   */
  lemma {:induction false} PutAllFirstPrefix(m: OrderedMap<string, Command>, ops: seq<(string, Command)>, lower: string)
    requires m.Valid() && m.keys == []
    ensures FirstPrefix(PutAll(m, ops).keys, lower).None? <==> FirstPrefix(KeysOf(ops), lower).None?
    ensures FirstPrefix(KeysOf(ops), lower).Some? ==>
      PutAll(m, ops).keys[FirstPrefix(PutAll(m, ops).keys, lower).value] == KeysOf(ops)[FirstPrefix(KeysOf(ops), lower).value]
    decreases |ops|
  {
    if ops == [] {
      assert KeysOf(ops) == [];
    } else {
      var init := ops[..|ops| - 1];
      var k := ops[|ops| - 1].0;
      var before := PutAll(m, init);
      PutAllFirstPrefix(m, init, lower);
      assert KeysOf(ops) == KeysOf(init) + [k];
      if FirstPrefix(KeysOf(init), lower).Some? {
        FirstPrefixAppend(KeysOf(init), [k], lower);
        if k !in before.values {
          FirstPrefixAppend(before.keys, [k], lower);
        }
      } else {
        FirstPrefixAfter(KeysOf(init), [k], lower);
        if k in before.values {
          assert k in before.keys;
        } else {
          FirstPrefixAfter(before.keys, [k], lower);
        }
      }
    }
  }

  /**
   * A query that normalises to "close tabs foo" equals no alias, and the
   * first alias it starts with is "close tab", so it resolves to
   * `close_single` rather than `close_multiple`.
   */
  lemma CloseTabsPrefix(c0: OrderedMap<string, Command>, a0: OrderedMap<string, Command>, query: string)
    requires c0.Valid() && a0.Valid() && a0.keys == []
    requires NormaliseQuery(query) == "close tabs foo"
    ensures Resolve(PutAll(c0, IdWrites(Registrations)), PutAll(a0, AliasWritesOf(Registrations)), query)
      == Some(Make(CloseSingle))
  {
    var lower := NormaliseQuery(query);
    var byAlias := PutAll(a0, AliasWritesOf(Registrations));
    var key := Registrations[2].info.aliases[0];
    NoAliasEquals(a0, lower);
    assert FirstEqual(byAlias.keys, lower).None?;
    FirstPrefixIsCloseTab(lower);
    PutAllFirstPrefix(a0, AliasWritesOf(Registrations), lower);
    var i := FirstPrefix(byAlias.keys, lower).value;
    assert byAlias.keys[i] == key;
    InitialAliases(a0, 2, 0);
    assert byAlias.values[key] == Registrations[2];
    assert AliasTier(byAlias, lower) == Some(Registrations[2]);
    ResolveTiers(PutAll(c0, IdWrites(Registrations)), byAlias, query);
    ThirdIsCloseSingle();
  }

  lemma ThirdIsCloseSingle()
    ensures Registrations[2] == Make(CloseSingle)
  {
  }

  /** "close tabs foo" is not a key of the alias map. */
  lemma NoAliasEquals(a0: OrderedMap<string, Command>, lower: string)
    requires a0.Valid() && a0.keys == [] && lower == "close tabs foo"
    ensures lower !in PutAll(a0, AliasWritesOf(Registrations)).values
  {
    if lower in PutAll(a0, AliasWritesOf(Registrations)).values {
      PutAllGet(a0, AliasWritesOf(Registrations), lower);
      var p :| p in AliasWritesOf(Registrations) && p.0 == lower;
      AliasWritesOfMembers(Registrations, p);
      var x, i :| 0 <= x < |Registrations| && 0 <= i < |Registrations[x].info.aliases| && p.0 == Lower(Registrations[x].info.aliases[i]);
      NotAnAlias(x, i);
    }
  }

  /** No registered command declares "close tabs foo" as an alias. */
  lemma NotAnAlias(x: nat, i: nat)
    requires x < |Registrations| && i < |Registrations[x].info.aliases|
    ensures Lower(Registrations[x].info.aliases[i]) != "close tabs foo"
  {
    AliasesLowerCase(Order[x]);
    LowerOfLower(Registrations[x].info.aliases[i]);
  }

  /** No alias of `previous_tab` prefixes "close tabs foo". */
  lemma PreviousTabNoPrefix(lower: string)
    requires lower == "close tabs foo"
    ensures FirstPrefix(Info(PreviousTab).aliases, lower).None?
  {
    var a := Info(PreviousTab).aliases;
    DiffersAt(lower, a[0], 0);
    DiffersAt(lower, a[1], 0);
    DiffersAt(lower, a[2], 0);
    DiffersAt(lower, a[3], 0);
  }

  /** No alias of `close_duplicates` prefixes "close tabs foo". */
  lemma CloseDuplicatesNoPrefix(lower: string)
    requires lower == "close tabs foo"
    ensures FirstPrefix(Info(CloseDuplicates).aliases, lower).None?
  {
    var a := Info(CloseDuplicates).aliases;
    DiffersAt(lower, a[0], 6);
    DiffersAt(lower, a[1], 6);
    DiffersAt(lower, a[2], 0);
  }

  /** The first alias of `close_single`, "close tab", prefixes "close tabs foo". */
  lemma CloseSingleFirstPrefix(lower: string)
    requires lower == "close tabs foo"
    ensures FirstPrefix(Info(CloseSingle).aliases, lower) == Some(0)
  {
    var a := Info(CloseSingle).aliases;
    assert lower[..|a[0]|] == a[0];
  }

  /** The alias keys in write order: those of the first three commands, then the rest. */
  lemma FrontKeys()
    ensures KeysOf(AliasWritesOf(Registrations)) ==
      Info(PreviousTab).aliases + Info(CloseDuplicates).aliases + Info(CloseSingle).aliases
      + KeysOf(AliasWritesOf(Registrations[3..]))
  {
    var r := Registrations;
    var w0, w1, w2 := AliasWrites(r[0]), AliasWrites(r[1]), AliasWrites(r[2]);
    var back := AliasWritesOf(r[3..]);
    FrontWrites();
    AliasesLowerCase(PreviousTab);
    AliasesLowerCase(CloseDuplicates);
    AliasesLowerCase(CloseSingle);
    AliasWritesKeys(r[0]);
    AliasWritesKeys(r[1]);
    AliasWritesKeys(r[2]);
    KeysOfAppend(w0, w1);
    KeysOfAppend(w0 + w1, w2);
    KeysOfAppend(w0 + w1 + w2, back);
  }

  /** The alias writes: those of the first three registrations, then the rest. */
  lemma FrontWrites()
    ensures AliasWritesOf(Registrations) ==
      AliasWrites(Registrations[0]) + AliasWrites(Registrations[1]) + AliasWrites(Registrations[2])
      + AliasWritesOf(Registrations[3..])
  {
    var r := Registrations[..3];
    var w0, w1, w2 := AliasWrites(r[0]), AliasWrites(r[1]), AliasWrites(r[2]);
    assert r[..2][..1] == r[..1] && r[..1][..0] == [];
    assert AliasWritesOf(r[..1]) == w0;
    assert AliasWritesOf(r[..2]) == w0 + w1;
    assert AliasWritesOf(r) == w0 + w1 + w2;
    assert Registrations == r + Registrations[3..];
    AliasWritesOfAppend(r, Registrations[3..]);
  }

  /**
   * When no key of `a0` or `a1` prefixes the query and the first key of `a2`
   * does, that key is the first prefixing key of the concatenation.
   */
  lemma FirstPrefixThird(a0: seq<string>, a1: seq<string>, a2: seq<string>, back: seq<string>, lower: string)
    requires FirstPrefix(a0, lower).None? && FirstPrefix(a1, lower).None? && FirstPrefix(a2, lower) == Some(0)
    ensures FirstPrefix(a0 + a1 + a2 + back, lower).Some?
    ensures (a0 + a1 + a2 + back)[FirstPrefix(a0 + a1 + a2 + back, lower).value] == a2[0]
  {
    FirstPrefixAfter(a0, a1, lower);
    FirstPrefixAfter(a0 + a1, a2, lower);
    FirstPrefixAppend(a0 + a1 + a2, back, lower);
    assert (a0 + a1 + a2 + back)[|a0| + |a1|] == a2[0];
  }

  /** Among the registered aliases, in order, the first that prefixes "close tabs foo" is "close tab". */
  lemma FirstPrefixIsCloseTab(lower: string)
    requires lower == "close tabs foo"
    ensures FirstPrefix(KeysOf(AliasWritesOf(Registrations)), lower).Some?
    ensures KeysOf(AliasWritesOf(Registrations))[FirstPrefix(KeysOf(AliasWritesOf(Registrations)), lower).value]
      == Registrations[2].info.aliases[0]
  {
    FrontKeys();
    PreviousTabNoPrefix(lower);
    CloseDuplicatesNoPrefix(lower);
    CloseSingleFirstPrefix(lower);
    FirstPrefixThird(Info(PreviousTab).aliases, Info(CloseDuplicates).aliases, Info(CloseSingle).aliases,
      KeysOf(AliasWritesOf(Registrations[3..])), lower);
    ThirdIsCloseSingle();
  }
}
