/**
 * The open/close state machine of the top-level component (src/App.tsx):
 * a double Shift opens the palette, Escape closes it. The clock is a
 * parameter of each key press.
 */
module App {

  /** How close together two Shift presses must be to open the palette, in milliseconds. */
  const DoubleShiftWindow: int := 300

  /** `isOpen` and the listener's closure variable `lastShiftPress`. */
  datatype AppState = AppState(isOpen: bool, lastShiftPress: int)

  /** The state when the component mounts: closed, with no Shift seen (time 0). */
  const Initial: AppState := AppState(false, 0)

  /**
   * `handleKeyDown` for a key press at time `now`: a Shift within 300 ms of
   * the previous one opens, every Shift records its time, Escape closes,
   * and other keys change nothing.
   */
  function KeyDown(s: AppState, key: string, now: int): (t: AppState)
    ensures key == "Shift" ==> t.lastShiftPress == now
    ensures key == "Shift" ==> (t.isOpen <==> s.isOpen || now - s.lastShiftPress < DoubleShiftWindow)
    ensures key == "Escape" ==> t == AppState(false, s.lastShiftPress)
    ensures key != "Shift" && key != "Escape" ==> t == s
  {
    if key == "Shift" then
      AppState(s.isOpen || now - s.lastShiftPress < DoubleShiftWindow, now)
    else if key == "Escape" then
      s.(isOpen := false)
    else s
  }

  /** Shift never closes the palette. */
  lemma ShiftNeverCloses(s: AppState, now: int)
    requires s.isOpen
    ensures KeyDown(s, "Shift", now).isOpen
  {
  }

  /** Two Shift presses less than 300 ms apart open the palette, whatever came before. */
  lemma DoubleShiftOpens(s: AppState, first: int, second: int)
    requires second - first < DoubleShiftWindow
    ensures KeyDown(KeyDown(s, "Shift", first), "Shift", second).isOpen
  {
  }

  /** Two Shift presses 300 ms or more apart leave a closed palette closed. */
  lemma SlowShiftsStayClosed(s: AppState, first: int, second: int)
    requires !s.isOpen && first - s.lastShiftPress >= DoubleShiftWindow
    requires second - first >= DoubleShiftWindow
    ensures !KeyDown(KeyDown(s, "Shift", first), "Shift", second).isOpen
  {
  }

  /**
   * Because the last press starts at 0, the very first Shift opens the
   * palette only when the clock reads less than 300.
   */
  lemma FirstShift(now: int)
    ensures KeyDown(Initial, "Shift", now).isOpen <==> now < DoubleShiftWindow
  {
  }

  /** Escape after anything leaves the palette closed. */
  lemma EscapeCloses(s: AppState, key: string, now: int, later: int)
    ensures !KeyDown(KeyDown(s, key, now), "Escape", later).isOpen
  {
  }

  class AppComponent {
    var isOpen: bool
    var lastShiftPress: int

    function State(): AppState
      reads this
    {
      AppState(isOpen, lastShiftPress)
    }

    constructor()
      ensures State() == Initial
    {
      isOpen := false;
      lastShiftPress := 0;
    }

    /** The `keydown` listener, with `Date.now()` given as `now`. */
    method HandleKeyDown(key: string, now: int)
      modifies this
      ensures State() == KeyDown(old(State()), key, now)
    {
      if key == "Shift" {
        if now - lastShiftPress < DoubleShiftWindow {
          isOpen := true;
        }
        lastShiftPress := now;
      } else if key == "Escape" {
        isOpen := false;
      }
    }

    /** `handleClose`, passed to the palette as `onClose`. */
    method HandleClose()
      modifies this
      ensures State() == old(State()).(isOpen := false)
    {
      isOpen := false;
    }
  }
}
