/**
 * The selection and execution handlers (src/keybindings/SelectionKeys.ts):
 * ten keys, each guarded by the modal, command mode, the selection and
 * input focus.
 */
module SelectionKeys {
  import opened Wrappers
  import opened Seqs
  import opened KeybindingManager

  /** `{ ctrl: true }` and `{ shift: true }`. */
  const CtrlOnly: Modifiers := Modifiers(Some(true), None, None, None)
  const ShiftOnly: Modifiers := Modifiers(None, Some(true), None, None)

  /** Enter and backtick: whenever the modal is open. */
  function WhenOpen(action: Action): Callback
  {
    (c: KeyContext) => if c.isModalOpen then Some(action) else None
  }

  /** Escape: leaves command mode if in it, otherwise closes the modal. */
  function EscapeCallback(): Callback
  {
    (c: KeyContext) => if c.isModalOpen then Some(if c.commandMode then ExitCommandMode else CloseModal) else None
  }

  /** Tab: enters command mode only from outside it, with the input unfocused. */
  function TabCallback(): Callback
  {
    (c: KeyContext) => if c.isModalOpen && !c.commandMode && !c.isInputFocused then Some(EnterCommandMode) else None
  }

  /** Space, Ctrl+A, Shift+Enter and Ctrl+Enter: in command mode with the input unfocused. */
  function InCommandMode(action: Action): Callback
  {
    (c: KeyContext) => if c.isModalOpen && c.commandMode && !c.isInputFocused then Some(action) else None
  }

  /** Ctrl+D and Delete: as `InCommandMode`, and only with something selected. */
  function WithSelection(action: Action): Callback
  {
    (c: KeyContext) => if c.isModalOpen && c.commandMode && c.hasSelection && !c.isInputFocused then Some(action) else None
  }

  /** The ten handlers, in the order they are registered. */
  const SelectionBindings: seq<Binding> := [
    Binding("enter", NoModifiers, WhenOpen(ExecuteSelected)),
    Binding("escape", NoModifiers, EscapeCallback()),
    Binding("`", NoModifiers, WhenOpen(CloseModal)),
    Binding("tab", NoModifiers, TabCallback()),
    Binding(" ", NoModifiers, InCommandMode(ToggleSelection)),
    Binding("a", CtrlOnly, InCommandMode(SelectAll)),
    Binding("d", CtrlOnly, WithSelection(ClearSelection)),
    Binding("delete", NoModifiers, WithSelection(ClearSelection)),
    Binding("enter", ShiftOnly, InCommandMode(ExecuteCurrentCommand)),
    Binding("enter", CtrlOnly, InCommandMode(ExecuteCurrentCommand))
  ]

  /** Every selection handler does nothing while the modal is closed. */
  lemma SelectionNeedsOpenModal(i: int, c: KeyContext)
    requires 0 <= i < |SelectionBindings| && !c.isModalOpen
    ensures SelectionBindings[i].handler(c).None?
  {
  }

  /** No selection handler calls `enterCommandMode` in command mode: Tab is unbound there. */
  lemma NoEnterCommandModeInCommandMode(i: int, c: KeyContext)
    requires 0 <= i < |SelectionBindings| && c.commandMode
    ensures SelectionBindings[i].handler(c) != Some(EnterCommandMode)
  {
  }

  /** While the modal is open, Enter always executes the selected row and backtick always closes. */
  lemma OpenModalKeys(c: KeyContext)
    requires c.isModalOpen
    ensures SelectionBindings[0].handler(c) == Some(ExecuteSelected)
    ensures SelectionBindings[2].handler(c) == Some(CloseModal)
    ensures SelectionBindings[1].handler(c) == Some(if c.commandMode then ExitCommandMode else CloseModal)
  {
  }

  /**
   * Toggling, selecting all, clearing and executing the current command
   * happen only in command mode, with the modal open and the input unfocused.
   */
  lemma CommandModeActions(i: int, c: KeyContext, a: Action)
    requires 0 <= i < |SelectionBindings| && SelectionBindings[i].handler(c) == Some(a)
    requires a in {ToggleSelection, SelectAll, ClearSelection, ExecuteCurrentCommand}
    ensures c.isModalOpen && c.commandMode && !c.isInputFocused
  {
  }

  /** Clearing the selection, by Ctrl+D or Delete, needs a selection. */
  lemma ClearNeedsSelection(i: int, c: KeyContext)
    requires 0 <= i < |SelectionBindings| && SelectionBindings[i].handler(c) == Some(ClearSelection)
    ensures c.isModalOpen && c.commandMode && c.hasSelection && !c.isInputFocused
  {
  }

  class SelectionKeys {
    const manager: Manager
    var handlers: seq<KeyHandler>

    /** Creates the ten handlers and registers them, in order, at the end of the manager's list. */
    constructor(manager: Manager)
      modifies manager
      ensures this.manager == manager
      ensures Shapes(handlers) == SelectionBindings
      ensures Distinct(handlers) && forall h :: h in handlers ==> fresh(h)
      ensures manager.handlers == old(manager.handlers) + handlers
      ensures manager.context == old(manager.context)
    {
      this.manager := manager;
      var hs := CreateHandlers(SelectionBindings);
      handlers := hs;
      new;
      for i := 0 to |hs|
        invariant manager.handlers == old(manager.handlers) + hs[..i]
        invariant manager.context == old(manager.context)
        invariant handlers == hs
      {
        assert hs[..i + 1] == hs[..i] + [hs[i]];
        manager.Register(hs[i]);
      }
      assert hs[..|hs|] == hs;
    }

    /** `destroy()`: unregisters each of its own handlers, then forgets them. */
    method Destroy()
      modifies this, manager
      ensures manager.handlers == RemoveEach(old(manager.handlers), old(handlers))
      ensures manager.context == old(manager.context)
      ensures handlers == []
    {
      var hs := handlers;
      for i := 0 to |hs|
        invariant manager.handlers == RemoveEach(old(manager.handlers), hs[..i])
        invariant manager.context == old(manager.context)
      {
        assert hs[..i + 1] == hs[..i] + [hs[i]];
        RemoveEachSnoc(old(manager.handlers), hs[..i], hs[i]);
        manager.Unregister(hs[i]);
      }
      assert hs[..|hs|] == hs;
      handlers := [];
    }
  }
}
