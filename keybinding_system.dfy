/**
 * `createKeybindingSystem` (src/keybindings/index.ts): one manager with the
 * navigation handlers registered first and the selection handlers after
 * them, and the combined `destroy`.
 */
module KeybindingSystem {
  import opened Wrappers
  import opened Strings
  import opened Seqs
  import opened KeybindingManager
  import opened NavigationKeys
  import opened SelectionKeys

  /** Every handler of a new system, in dispatch order. */
  const AllBindings: seq<Binding> := NavigationBindings + SelectionBindings

  /** Every handler key is written in lower case. */
  lemma KeysLowerCase()
    ensures forall i :: 0 <= i < |AllBindings| ==> IsLower(AllBindings[i].key)
  {
  }

  /** A navigation key and a selection key are never the same key. */
  lemma KeysDisjoint(i: int, j: int)
    requires 0 <= i < |NavigationBindings| && 0 <= j < |SelectionBindings|
    ensures NavigationBindings[i].key != SelectionBindings[j].key
  {
  }

  /** No key event is matched by both a navigation handler and a selection handler. */
  lemma NoSharedBinding(event: KeyEvent, i: int, j: int)
    requires 0 <= i < |NavigationBindings| && 0 <= j < |SelectionBindings|
    ensures !(Matches(event, NavigationBindings[i]) && Matches(event, SelectionBindings[j]))
  {
    KeysLowerCase();
    assert AllBindings[i] == NavigationBindings[i];
    assert AllBindings[|NavigationBindings| + j] == SelectionBindings[j];
    LowerOfLower(NavigationBindings[i].key);
    LowerOfLower(SelectionBindings[j].key);
    KeysDisjoint(i, j);
  }

  /** While the palette is closed no key is handled: every handler needs the modal open. */
  lemma ClosedHandlesNothing(event: KeyEvent, c: KeyContext)
    requires !c.isModalOpen
    ensures Dispatch(AllBindings, event, c) == (true, None)
  {
    forall i | 0 <= i < |AllBindings| ensures AllBindings[i].handler(c).None? {
      if i < |NavigationBindings| {
        assert AllBindings[i] == NavigationBindings[i];
        NavigationGuard(i, c);
      } else {
        assert AllBindings[i] == SelectionBindings[i - |NavigationBindings|];
        SelectionNeedsOpenModal(i - |NavigationBindings|, c);
      }
    }
  }

  lemma LowerTab()
    ensures Lower("Tab") == "tab"
  {
  }

  lemma LowerEscape()
    ensures Lower("Escape") == "escape"
  {
  }

  lemma LowerEnter()
    ensures Lower("Enter") == "enter"
  {
  }

  lemma LowerArrowDown()
    ensures Lower("ArrowDown") == "arrowdown"
  {
  }

  /** An event matches a handler of the system only through a handler with its lower-cased key. */
  lemma MatchesByKey(event: KeyEvent, key: string, i: int)
    requires Lower(event.key) == key && 0 <= i < |AllBindings|
    requires Matches(event, AllBindings[i])
    ensures AllBindings[i].key == key
  {
    KeysLowerCase();
    LowerOfLower(AllBindings[i].key);
  }

  lemma TabDoesNotFire(c: KeyContext, i: int)
    requires c.commandMode && 0 <= i < |AllBindings|
    ensures !Fires(AllBindings, Plain("Tab"), c, i)
  {
    LowerTab();
    if Matches(Plain("Tab"), AllBindings[i]) {
      MatchesByKey(Plain("Tab"), "tab", i);
      assert AllBindings[i].key[0] == 't';
    }
  }

  /** In command mode, Tab is not handled: the default (focus change) happens. */
  lemma TabUnboundInCommandMode(c: KeyContext)
    requires c.commandMode
    ensures Dispatch(AllBindings, Plain("Tab"), c) == (true, None)
  {
    forall i | 0 <= i < |AllBindings| ensures !Fires(AllBindings, Plain("Tab"), c, i) {
      TabDoesNotFire(c, i);
    }
  }

  /** Backtick closes the palette whenever it is open, in or out of command mode. */
  lemma BacktickCloses(c: KeyContext)
    requires c.isModalOpen
    ensures Dispatch(AllBindings, Plain("`"), c) == (false, Some(CloseModal))
  {
    assert Lower("`") == "`";
    forall k | 0 <= k < 8 ensures !Fires(AllBindings, Plain("`"), c, k) {
      if Matches(Plain("`"), AllBindings[k]) {
        MatchesByKey(Plain("`"), "`", k);
      }
    }
    DispatchFirstFiring(AllBindings, Plain("`"), c, 8);
  }

  /** Escape leaves command mode when in it, and closes the palette otherwise. */
  lemma EscapeRouting(c: KeyContext)
    requires c.isModalOpen
    ensures Dispatch(AllBindings, Plain("Escape"), c) == (false, Some(if c.commandMode then ExitCommandMode else CloseModal))
  {
    LowerEscape();
    forall k | 0 <= k < 7 ensures !Fires(AllBindings, Plain("Escape"), c, k) {
      if Matches(Plain("Escape"), AllBindings[k]) {
        MatchesByKey(Plain("Escape"), "escape", k);
      }
    }
    DispatchFirstFiring(AllBindings, Plain("Escape"), c, 7);
  }

  lemma ShiftArrowDownMatchesNothing(i: int)
    requires 0 <= i < |AllBindings|
    ensures !Matches(KeyEvent("ArrowDown", false, true, false, false), AllBindings[i])
  {
    LowerArrowDown();
    KeysLowerCase();
    LowerOfLower(AllBindings[i].key);
  }

  /** Shift+ArrowDown is not handled at all: navigation handlers take no modifiers. */
  lemma ShiftArrowDownUnhandled(c: KeyContext)
    ensures Dispatch(AllBindings, KeyEvent("ArrowDown", false, true, false, false), c) == (true, None)
  {
    forall i | 0 <= i < |AllBindings| ensures !Matches(KeyEvent("ArrowDown", false, true, false, false), AllBindings[i]) {
      ShiftArrowDownMatchesNothing(i);
    }
  }

  /**
   * Shift+Enter never reaches the plain Enter handler: it runs the current
   * command exactly in command mode with the input unfocused, and otherwise
   * is not handled.
   */
  lemma ShiftEnter(c: KeyContext)
    requires c.isModalOpen
    ensures Dispatch(AllBindings, KeyEvent("Enter", false, true, false, false), c) ==
      if c.commandMode && !c.isInputFocused then (false, Some(ExecuteCurrentCommand)) else (true, None)
  {
    var event := KeyEvent("Enter", false, true, false, false);
    LowerEnter();
    forall k | 0 <= k < |AllBindings| && k != 14 ensures !Matches(event, AllBindings[k]) {
      if Matches(event, AllBindings[k]) {
        MatchesByKey(event, "enter", k);
      }
    }
    if c.commandMode && !c.isInputFocused {
      DispatchFirstFiring(AllBindings, event, c, 14);
    }
  }

  /** Plain Enter activates the selected item whenever the palette is open. */
  lemma EnterExecutesSelected(c: KeyContext)
    requires c.isModalOpen
    ensures Dispatch(AllBindings, Plain("Enter"), c) == (false, Some(ExecuteSelected))
  {
    LowerEnter();
    forall k | 0 <= k < 6 ensures !Fires(AllBindings, Plain("Enter"), c, k) {
      if Matches(Plain("Enter"), AllBindings[k]) {
        MatchesByKey(Plain("Enter"), "enter", k);
      }
    }
    DispatchFirstFiring(AllBindings, Plain("Enter"), c, 6);
  }

  class KeybindingSystem {
    const manager: Manager
    const navigationKeys: NavigationKeys
    const selectionKeys: SelectionKeys

    /** The three objects are wired to the one manager. */
    predicate Valid()
    {
      navigationKeys.manager == manager && selectionKeys.manager == manager
    }

    /**
     * `createKeybindingSystem`: a fresh manager with the default context,
     * holding the six navigation handlers followed by the ten selection
     * handlers.
     */
    constructor()
      ensures Valid()
      ensures fresh(manager) && fresh(navigationKeys) && fresh(selectionKeys)
      ensures manager.context == DefaultContext
      ensures manager.handlers == navigationKeys.handlers + selectionKeys.handlers
      ensures Shapes(manager.handlers) == AllBindings
      ensures Distinct(manager.handlers)
    {
      var m := new Manager();
      var nav := new NavigationKeys(m);
      var sel := new SelectionKeys(m);
      manager := m;
      navigationKeys := nav;
      selectionKeys := sel;
      new;
      ShapesAppend(nav.handlers, sel.handlers);
      assert m.handlers == nav.handlers + sel.handlers;
      forall i, j | 0 <= i < j < |m.handlers| ensures m.handlers[i] != m.handlers[j] {
        if j >= |nav.handlers| && i < |nav.handlers| {
          assert m.handlers[i] in nav.handlers && m.handlers[j] in sel.handlers;
        } else if i >= |nav.handlers| {
          assert m.handlers[i] == sel.handlers[i - |nav.handlers|] && m.handlers[j] == sel.handlers[j - |nav.handlers|];
        }
      }
    }

    /** `destroy()`: both groups unregister their handlers, then the manager is cleared. */
    method Destroy()
      requires Valid()
      modifies manager, navigationKeys, selectionKeys
      ensures manager.handlers == [] && navigationKeys.handlers == [] && selectionKeys.handlers == []
      ensures manager.context == old(manager.context)
    {
      navigationKeys.Destroy();
      selectionKeys.Destroy();
      manager.Clear();
    }
  }

  /**
   * The two groups' own `destroy` calls already remove every handler of a
   * new system; the final `clear` finds nothing left.
   */
  lemma GroupsRemoveEverything(nav: seq<KeyHandler>, sel: seq<KeyHandler>)
    requires Distinct(nav + sel)
    ensures RemoveEach(RemoveEach(nav + sel, nav), sel) == []
  {
    assert Distinct(nav) by {
      forall i, j | 0 <= i < j < |nav| ensures nav[i] != nav[j] {
        assert nav[i] == (nav + sel)[i] && nav[j] == (nav + sel)[j];
      }
    }
    assert Distinct(sel) by {
      forall i, j | 0 <= i < j < |sel| ensures sel[i] != sel[j] {
        assert sel[i] == (nav + sel)[|nav| + i] && sel[j] == (nav + sel)[|nav| + j];
      }
    }
    RemoveEachPrefix(nav, sel);
    RemoveEachPrefix(sel, []);
    assert sel + [] == sel;
  }
}
