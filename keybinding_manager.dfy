/**
 * The central keyboard dispatcher (src/keybindings/KeybindingManager.ts): a
 * list of handlers in registration order and the context they read. A
 * handler's callback is modelled by what it does for a context: either
 * nothing (it returns `undefined`) or one call of a palette action followed
 * by `return false`.
 */
module KeybindingManager {
  import opened Wrappers
  import opened Strings
  import opened Seqs

  /** The palette actions a handler can call. */
  datatype Action =
    | MoveUp | MoveDown | MoveToFirst | MoveToLast | PageUp | PageDown
    | ExecuteSelected | ToggleSelection | SelectAll | ClearSelection
    | CloseModal | EnterCommandMode | ExitCommandMode | ExecuteCurrentCommand

  /** `KeybindingContext`. */
  datatype KeyContext = KeyContext(
    isModalOpen: bool,
    commandMode: bool,
    hasSelection: bool,
    selectedCount: int,
    isInputFocused: bool,
    activeItemIndex: int,
    totalItems: int)

  /** The context a new manager starts with. */
  const DefaultContext: KeyContext := KeyContext(false, false, false, 0, false, -1, 0)

  /** `Partial<KeybindingContext>`: `None` for each field not supplied. */
  datatype ContextUpdate = ContextUpdate(
    isModalOpen: Option<bool>,
    commandMode: Option<bool>,
    hasSelection: Option<bool>,
    selectedCount: Option<int>,
    isInputFocused: Option<bool>,
    activeItemIndex: Option<int>,
    totalItems: Option<int>)

  /** `{ ...context, ...update }`: each supplied field replaces the old one, the rest stay. */
  function Updated(c: KeyContext, u: ContextUpdate): (r: KeyContext)
    ensures u.isModalOpen.None? ==> r.isModalOpen == c.isModalOpen
    ensures u.isModalOpen.Some? ==> r.isModalOpen == u.isModalOpen.value
    ensures u.commandMode.None? ==> r.commandMode == c.commandMode
    ensures u.commandMode.Some? ==> r.commandMode == u.commandMode.value
    ensures u.hasSelection.None? ==> r.hasSelection == c.hasSelection
    ensures u.hasSelection.Some? ==> r.hasSelection == u.hasSelection.value
    ensures u.selectedCount.None? ==> r.selectedCount == c.selectedCount
    ensures u.selectedCount.Some? ==> r.selectedCount == u.selectedCount.value
    ensures u.isInputFocused.None? ==> r.isInputFocused == c.isInputFocused
    ensures u.isInputFocused.Some? ==> r.isInputFocused == u.isInputFocused.value
    ensures u.activeItemIndex.None? ==> r.activeItemIndex == c.activeItemIndex
    ensures u.activeItemIndex.Some? ==> r.activeItemIndex == u.activeItemIndex.value
    ensures u.totalItems.None? ==> r.totalItems == c.totalItems
    ensures u.totalItems.Some? ==> r.totalItems == u.totalItems.value
  {
    KeyContext(
      u.isModalOpen.GetOr(c.isModalOpen),
      u.commandMode.GetOr(c.commandMode),
      u.hasSelection.GetOr(c.hasSelection),
      u.selectedCount.GetOr(c.selectedCount),
      u.isInputFocused.GetOr(c.isInputFocused),
      u.activeItemIndex.GetOr(c.activeItemIndex),
      u.totalItems.GetOr(c.totalItems))
  }

  /** An update that supplies nothing leaves the context as it was. */
  lemma EmptyUpdate(c: KeyContext)
    ensures Updated(c, ContextUpdate(None, None, None, None, None, None, None)) == c
  {
  }

  /** Applying the same update twice is the same as applying it once. */
  lemma UpdateIdempotent(c: KeyContext, u: ContextUpdate)
    ensures Updated(Updated(c, u), u) == Updated(c, u)
  {
  }

  /** The modifier flags of a handler; `None` for a flag not given. */
  datatype Modifiers = Modifiers(ctrl: Option<bool>, shift: Option<bool>, alt: Option<bool>, meta: Option<bool>)

  /** `createHandler`'s default `{}`. */
  const NoModifiers: Modifiers := Modifiers(None, None, None, None)

  /** `KeyboardEvent`: its `key` and the four modifier states. */
  datatype KeyEvent = KeyEvent(key: string, ctrlKey: bool, shiftKey: bool, altKey: bool, metaKey: bool)

  /** A key pressed with no modifier held. */
  function Plain(key: string): KeyEvent
  {
    KeyEvent(key, false, false, false, false)
  }

  /** What a handler's callback does in a context: `None` is `undefined`. */
  type Callback = KeyContext -> Option<Action>

  /** The fields of a `KeyHandler`. */
  datatype Binding = Binding(key: string, modifiers: Modifiers, handler: Callback)

  /**
   * `matchesKey(event, handler)`: the keys are equal once lower-cased, and
   * each modifier of the handler, absent counting as false, equals the
   * event's.
   */
  predicate Matches(event: KeyEvent, b: Binding)
  {
    && Lower(event.key) == Lower(b.key)
    && b.modifiers.ctrl.GetOr(false) == event.ctrlKey
    && b.modifiers.shift.GetOr(false) == event.shiftKey
    && b.modifiers.alt.GetOr(false) == event.altKey
    && b.modifiers.meta.GetOr(false) == event.metaKey
  }

  /** A handler created without modifiers matches only events with no modifier held. */
  lemma UnmodifiedMatchesOnlyPlain(event: KeyEvent, b: Binding)
    requires b.modifiers == NoModifiers && Matches(event, b)
    ensures event == Plain(event.key)
  {
  }

  /** Matching ignores letter case in the key, on either side. */
  lemma MatchIgnoresCase(event: KeyEvent, b: Binding)
    ensures Matches(event, b) <==> Matches(event.(key := Lower(event.key)), b.(key := Lower(b.key)))
  {
    LowerIdempotent(event.key);
    LowerIdempotent(b.key);
  }

  lemma LowerIdempotent(s: string)
    ensures Lower(Lower(s)) == Lower(s)
  {
    assert IsLower(Lower(s));
    LowerOfLower(Lower(s));
  }

  /** `handlers.filter(h => matchesKey(event, h))`: every matching handler, in registration order. */
  function MatchingBindings(bs: seq<Binding>, event: KeyEvent): (r: seq<Binding>)
    ensures |r| <= |bs|
    ensures forall b :: b in r <==> b in bs && Matches(event, b)
    ensures IsSubseq(r, bs)
    decreases |bs|
  {
    if bs == [] then []
    else if Matches(event, bs[0]) then [bs[0]] + MatchingBindings(bs[1..], event)
    else MatchingBindings(bs[1..], event)
  }

  /** The loop of `handleKeyEvent` over the matching handlers: the first one to fire ends it. */
  function Run(ms: seq<Binding>, context: KeyContext): (r: (bool, Option<Action>))
    decreases |ms|
  {
    if ms == [] then (true, None)
    else if ms[0].handler(context).Some? then (false, ms[0].handler(context))
    else Run(ms[1..], context)
  }

  /** Handler `i` matches the event and its callback calls an action. */
  predicate Fires(bs: seq<Binding>, event: KeyEvent, context: KeyContext, i: int)
    requires 0 <= i < |bs|
  {
    Matches(event, bs[i]) && bs[i].handler(context).Some?
  }

  /**
   * `handleKeyEvent(event)` for handlers `bs`: the result is false, with
   * the action called, exactly when some handler fires, and then the action
   * is the one of the first to fire in registration order; otherwise the
   * result is true and nothing is called.
   */
  function Dispatch(bs: seq<Binding>, event: KeyEvent, context: KeyContext): (r: (bool, Option<Action>))
    ensures r.0 <==> r.1.None?
    ensures r.1.None? <==> forall i :: 0 <= i < |bs| ==> !Fires(bs, event, context, i)
    ensures r.1.Some? ==>
      exists i :: 0 <= i < |bs| && Fires(bs, event, context, i) && r.1 == bs[i].handler(context) && forall k :: 0 <= k < i ==> !Fires(bs, event, context, k)
    decreases |bs|
  {
    if bs == [] then (true, None)
    else if Fires(bs, event, context, 0) then
      (false, bs[0].handler(context))
    else
      var r := Dispatch(bs[1..], event, context);
      assert forall i :: 1 <= i < |bs| ==> (Fires(bs, event, context, i) <==> Fires(bs[1..], event, context, i - 1));
      if r.1.Some? then
        var j :| 0 <= j < |bs[1..]| && Fires(bs[1..], event, context, j) && r.1 == bs[1..][j].handler(context) && forall k :: 0 <= k < j ==> !Fires(bs[1..], event, context, k);
        assert Fires(bs, event, context, j + 1);
        r
      else r
  }

  /** When handler `i` is the first to fire, it decides the dispatch. */
  lemma DispatchFirstFiring(bs: seq<Binding>, event: KeyEvent, context: KeyContext, i: int)
    requires 0 <= i < |bs| && Fires(bs, event, context, i)
    requires forall k :: 0 <= k < i ==> !Fires(bs, event, context, k)
    ensures Dispatch(bs, event, context) == (false, bs[i].handler(context))
  {
    var r := Dispatch(bs, event, context);
    var j :| 0 <= j < |bs| && Fires(bs, event, context, j) && r.1 == bs[j].handler(context) && forall k :: 0 <= k < j ==> !Fires(bs, event, context, k);
    assert j == i;
  }

  /** Filtering the matching handlers first and then running them is the same dispatch. */
  lemma {:induction false} DispatchIsRunOfMatching(bs: seq<Binding>, event: KeyEvent, context: KeyContext)
    ensures Run(MatchingBindings(bs, event), context) == Dispatch(bs, event, context)
    decreases |bs|
  {
    if bs != [] {
      DispatchIsRunOfMatching(bs[1..], event, context);
      if !Fires(bs, event, context, 0) {
        assert Dispatch(bs, event, context) == Dispatch(bs[1..], event, context);
      }
    }
  }

  /** Handlers after the first to fire are never consulted. */
  lemma {:induction false} DispatchAppend(a: seq<Binding>, b: seq<Binding>, event: KeyEvent, context: KeyContext)
    ensures Dispatch(a + b, event, context) ==
      if Dispatch(a, event, context).1.Some? then Dispatch(a, event, context) else Dispatch(b, event, context)
    decreases |a|
  {
    if a == [] {
      assert a + b == b;
    } else {
      assert (a + b)[0] == a[0];
      assert (a + b)[1..] == a[1..] + b;
      DispatchAppend(a[1..], b, event, context);
    }
  }

  /** A `KeyHandler` object; the manager finds and removes it by identity. */
  class KeyHandler {
    const key: string
    const ctrlKey: Option<bool>
    const shiftKey: Option<bool>
    const altKey: Option<bool>
    const metaKey: Option<bool>
    const handler: Callback

    /** The handler's fields as a value. */
    function Shape(): (b: Binding)
      ensures b.key == key && b.handler == handler
      ensures b.modifiers == Modifiers(ctrlKey, shiftKey, altKey, metaKey)
    {
      Binding(key, Modifiers(ctrlKey, shiftKey, altKey, metaKey), handler)
    }

    constructor(key: string, ctrlKey: Option<bool>, shiftKey: Option<bool>, altKey: Option<bool>, metaKey: Option<bool>, handler: Callback)
      ensures Shape() == Binding(key, Modifiers(ctrlKey, shiftKey, altKey, metaKey), handler)
    {
      this.key := key;
      this.ctrlKey := ctrlKey;
      this.shiftKey := shiftKey;
      this.altKey := altKey;
      this.metaKey := metaKey;
      this.handler := handler;
    }
  }

  /** `KeybindingManager.createHandler(key, handler, modifiers)`: a new handler object. */
  method CreateHandler(key: string, handler: Callback, modifiers: Modifiers) returns (h: KeyHandler)
    ensures fresh(h)
    ensures h.Shape() == Binding(key, modifiers, handler)
  {
    h := new KeyHandler(key, modifiers.ctrl, modifiers.shift, modifiers.alt, modifiers.meta, handler);
  }

  /**
   * One `createHandler` call per row of `bindings`, in order: new, distinct
   * handler objects with exactly those fields.
   */
  method CreateHandlers(bindings: seq<Binding>) returns (hs: seq<KeyHandler>)
    ensures Shapes(hs) == bindings
    ensures Distinct(hs) && forall h :: h in hs ==> fresh(h)
  {
    hs := [];
    for i := 0 to |bindings|
      invariant Shapes(hs) == bindings[..i]
      invariant Distinct(hs) && forall h :: h in hs ==> fresh(h)
    {
      var b := bindings[i];
      var h := CreateHandler(b.key, b.handler, b.modifiers);
      assert bindings[..i + 1] == bindings[..i] + [b];
      hs := hs + [h];
    }
    assert bindings[..|bindings|] == bindings;
  }

  /** The fields of each handler, in order. */
  function Shapes(hs: seq<KeyHandler>): (r: seq<Binding>)
    ensures |r| == |hs| && forall i :: 0 <= i < |hs| ==> r[i] == hs[i].Shape()
  {
    seq(|hs|, i requires 0 <= i < |hs| => hs[i].Shape())
  }

  lemma ShapesAppend(a: seq<KeyHandler>, b: seq<KeyHandler>)
    ensures Shapes(a + b) == Shapes(a) + Shapes(b)
  {
  }

  class Manager {
    var handlers: seq<KeyHandler>
    var context: KeyContext

    constructor()
      ensures handlers == [] && context == DefaultContext
    {
      handlers := [];
      context := DefaultContext;
    }

    /** `register(handler)`: appended at the end. */
    method Register(handler: KeyHandler)
      modifies this
      ensures handlers == old(handlers) + [handler]
      ensures context == old(context)
    {
      handlers := handlers + [handler];
    }

    /** `unregister(handler)`: the first occurrence of this very object goes; absent, nothing happens. */
    method Unregister(handler: KeyHandler)
      modifies this
      ensures handlers == RemoveFirst(old(handlers), handler)
      ensures handler !in old(handlers) ==> handlers == old(handlers)
      ensures context == old(context)
    {
      var index := Find(handlers, handler);
      if index.Some? {
        handlers := handlers[..index.value] + handlers[index.value + 1..];
      }
    }

    /** `clear()`. */
    method Clear()
      modifies this
      ensures handlers == []
      ensures context == old(context)
    {
      handlers := [];
    }

    /** `updateContext(newContext)`. */
    method UpdateContext(update: ContextUpdate)
      modifies this
      ensures context == Updated(old(context), update)
      ensures handlers == old(handlers)
    {
      context := Updated(context, update);
    }

    /** `getContext()`: the context, as a value (so a copy). */
    function GetContext(): KeyContext
      reads this
    {
      context
    }

    /**
     * `handleKeyEvent(event)`: filters the matching handlers, then runs them
     * in order until one returns false. Returns the result and the action
     * the firing handler called; `preventDefault` is called exactly when
     * the result is false.
     */
    method HandleKeyEvent(event: KeyEvent) returns (result: bool, called: Option<Action>)
      ensures (result, called) == Dispatch(Shapes(handlers), event, context)
    {
      var matching := CollectMatching(handlers, event);
      DispatchIsRunOfMatching(Shapes(handlers), event, context);
      result, called := RunHandlers(matching, context);
    }
  }

  /** The filter loop of `handleKeyEvent`: the matching handlers, in order. */
  method CollectMatching(handlers: seq<KeyHandler>, event: KeyEvent) returns (matching: seq<KeyHandler>)
    ensures Shapes(matching) == MatchingBindings(Shapes(handlers), event)
  {
    matching := [];
    for i := 0 to |handlers|
      invariant Shapes(matching) == MatchingBindings(Shapes(handlers[..i]), event)
    {
      CollectStep(handlers, i, event);
      if Matches(event, handlers[i].Shape()) {
        ShapesAppend(matching, [handlers[i]]);
        matching := matching + [handlers[i]];
      }
    }
    assert handlers[..|handlers|] == handlers;
  }

  /** One more handler extends the filtered list by itself when it matches, and by nothing otherwise. */
  lemma CollectStep(handlers: seq<KeyHandler>, i: nat, event: KeyEvent)
    requires i < |handlers|
    ensures MatchingBindings(Shapes(handlers[..i + 1]), event) ==
      MatchingBindings(Shapes(handlers[..i]), event) + (if Matches(event, handlers[i].Shape()) then [handlers[i].Shape()] else [])
  {
    assert Shapes(handlers[..i + 1]) == Shapes(handlers[..i]) + [handlers[i].Shape()];
    MatchingAppend(Shapes(handlers[..i]), [handlers[i].Shape()], event);
  }

  /** The run loop of `handleKeyEvent`: the first handler to call an action ends it with false. */
  method RunHandlers(matching: seq<KeyHandler>, context: KeyContext) returns (result: bool, called: Option<Action>)
    ensures (result, called) == Run(Shapes(matching), context)
  {
    var j := 0;
    while j < |matching|
      invariant 0 <= j <= |matching|
      invariant Run(Shapes(matching), context) == Run(Shapes(matching[j..]), context)
    {
      var outcome := matching[j].handler(context);
      if outcome.Some? {
        return false, outcome;
      }
      assert Shapes(matching[j + 1..]) == Shapes(matching[j..])[1..];
      j := j + 1;
    }
    return true, None;
  }

  lemma {:induction false} MatchingAppend(a: seq<Binding>, b: seq<Binding>, event: KeyEvent)
    ensures MatchingBindings(a + b, event) == MatchingBindings(a, event) + MatchingBindings(b, event)
    decreases |a|
  {
    if a != [] {
      assert (a + b)[1..] == a[1..] + b;
      MatchingAppend(a[1..], b, event);
    } else {
      assert a + b == b;
    }
  }
}
