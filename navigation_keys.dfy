/**
 * The navigation handlers (src/keybindings/NavigationKeys.ts): six
 * unmodified keys that move the cursor while the palette is open and
 * lists something.
 */
module NavigationKeys {
  import opened Wrappers
  import opened Seqs
  import opened KeybindingManager

  /** The guard every navigation handler shares: the modal is open and lists at least one item. */
  function WhenListed(action: Action): Callback
  {
    (c: KeyContext) => if c.isModalOpen && c.totalItems > 0 then Some(action) else None
  }

  /** The six handlers, in the order they are registered. */
  const NavigationBindings: seq<Binding> := [
    Binding("arrowup", NoModifiers, WhenListed(MoveUp)),
    Binding("arrowdown", NoModifiers, WhenListed(MoveDown)),
    Binding("home", NoModifiers, WhenListed(MoveToFirst)),
    Binding("end", NoModifiers, WhenListed(MoveToLast)),
    Binding("pageup", NoModifiers, WhenListed(PageUp)),
    Binding("pagedown", NoModifiers, WhenListed(PageDown))
  ]

  /**
   * Each navigation handler calls its action, and so returns false, exactly
   * when the modal is open with items; otherwise it returns `undefined` and
   * dispatch goes on to later handlers.
   */
  lemma NavigationGuard(i: int, c: KeyContext)
    requires 0 <= i < |NavigationBindings|
    ensures NavigationBindings[i].handler(c) ==
      if c.isModalOpen && c.totalItems > 0 then Some([MoveUp, MoveDown, MoveToFirst, MoveToLast, PageUp, PageDown][i])
      else None
  {
  }

  /** No navigation handler takes a modifier, so none matches a key pressed with one held. */
  lemma NavigationNeedsNoModifier(event: KeyEvent, i: int)
    requires 0 <= i < |NavigationBindings|
    requires event.ctrlKey || event.shiftKey || event.altKey || event.metaKey
    ensures !Matches(event, NavigationBindings[i])
  {
  }

  class NavigationKeys {
    const manager: Manager
    var handlers: seq<KeyHandler>

    /** Creates the six handlers and registers them, in order, at the end of the manager's list. */
    constructor(manager: Manager)
      modifies manager
      ensures this.manager == manager
      ensures Shapes(handlers) == NavigationBindings
      ensures Distinct(handlers) && forall h :: h in handlers ==> fresh(h)
      ensures manager.handlers == old(manager.handlers) + handlers
      ensures manager.context == old(manager.context)
    {
      this.manager := manager;
      var hs := CreateHandlers(NavigationBindings);
      handlers := hs;
      new;
      for i := 0 to |hs|
        invariant manager.handlers == old(manager.handlers) + hs[..i]
        invariant manager.context == old(manager.context)
        invariant handlers == hs
      {
        assert hs[..i + 1] == hs[..i] + [hs[i]];
        manager.Register(hs[i]);
      }
      assert hs[..|hs|] == hs;
    }

    /** `destroy()`: unregisters each of its own handlers, then forgets them. */
    method Destroy()
      modifies this, manager
      ensures manager.handlers == RemoveEach(old(manager.handlers), old(handlers))
      ensures manager.context == old(manager.context)
      ensures handlers == []
    {
      var hs := handlers;
      for i := 0 to |hs|
        invariant manager.handlers == RemoveEach(old(manager.handlers), hs[..i])
        invariant manager.context == old(manager.context)
      {
        assert hs[..i + 1] == hs[..i] + [hs[i]];
        RemoveEachSnoc(old(manager.handlers), hs[..i], hs[i]);
        manager.Unregister(hs[i]);
      }
      assert hs[..|hs|] == hs;
      handlers := [];
    }
  }
}
