/**
 * Per-window input state (src/input.rs): the last cursor position and, for
 * every mouse-button name and key name seen so far, whether it is held down
 * and a "pressed once" flag that a query consumes. `process_event` is fed
 * every window event by the runner; an input bound to a window ignores the
 * events of other windows.
 */
module Input {
  import opened Wrappers
  import opened Geometry
  import Layout

  /** A button or key name (`SmolStr`). */
  type Name = seq<char>

  const ORIGIN: Point2 := Point2(0, 0)

  /** The distance between neighbouring `f32` values at a magnitude `a` with 2^24 < a <= 2^31. */
  function F32Spacing(a: nat): (u: nat)
    ensures 2 <= u <= 256 && u % 2 == 0
    ensures a < 0x8000_0000 ==> u <= 128 && 0x8000_0000 % u == 0
  {
    if a < 0x200_0000 then 2
    else if a < 0x400_0000 then 4
    else if a < 0x800_0000 then 8
    else if a < 0x1000_0000 then 16
    else if a < 0x2000_0000 then 32
    else if a < 0x4000_0000 then 64
    else if a < 0x8000_0000 then 128
    else 256
  }

  /** `a as f32` for a magnitude up to 2^31: the nearest `f32`, ties to the even one. */
  function F32OfNat(a: nat): (r: nat)
    requires a <= 0x8000_0000
    ensures a <= 0x100_0000 ==> r == a
    ensures r <= 0x8000_0000
    ensures a <= r + 64 && r <= a + 64
    ensures 0x7FFF_FFC0 <= a ==> r == 0x8000_0000
  {
    if a <= 0x100_0000 then a
    else
      var u := F32Spacing(a);
      var q := a / u;
      var m := a % u;
      assert a == q * u + m;
      if 2 * m < u || (2 * m == u && q % 2 == 0) then q * u else (q + 1) * u
  }

  /**
   * One coordinate of `Point2::new(pos.x as f32, pos.y as f32)`: the i32 is
   * rounded to an `f32` and converted back with `to_i32().unwrap_or(0)`.
   * Coordinates up to 2^24 in magnitude are kept; larger ones move to the
   * nearest `f32`, and those that round up to 2^31 become 0.
   */
  function CursorCoord(v: Layout.I32): (r: Layout.I32)
    ensures -0x100_0000 <= v <= 0x100_0000 ==> r == v
    ensures 0x7FFF_FFC0 <= v ==> r == 0
    ensures r == 0 || (v <= r + 64 && r <= v + 64)
  {
    var f: int := if v >= 0 then F32OfNat(v) else 0 - F32OfNat(-(v as int)) as int;
    if f < 0x8000_0000 then f else 0
  }

  /** The position `process_event` stores for a cursor event at `pos`. */
  function CursorPosition(pos: Point2): (r: Point2)
    ensures -0x100_0000 <= pos.x <= 0x100_0000 && -0x100_0000 <= pos.y <= 0x100_0000 ==> r == pos
  {
    Point2(CursorCoord(pos.x), CursorCoord(pos.y))
  }

  /** The events the input listens to; every other runner event is `Other`. */
  datatype Event =
    | CursorMoved(pos: Point2, windowId: nat)
    | MouseInput(button: Name, pressed: bool, windowId: nat)
    | KeyboardInput(key: Name, pressed: bool, windowId: nat)
    | Other

  /** Which pair of maps a query or an event addresses. */
  datatype Device = Mouse | Keyboard

  /** The fields of `InputInner`. */
  datatype InputState = InputState(
    windowId: Option<nat>,
    position: Point2,
    buttons: map<Name, bool>,
    buttonsOnce: map<Name, bool>,
    keys: map<Name, bool>,
    keysOnce: map<Name, bool>)

  /** The state of a fresh input: the default `InputInner` with the window it is bound to. */
  function Initial(windowId: Option<nat>): InputState
  {
    InputState(windowId, ORIGIN, map[], map[], map[], map[])
  }

  /** An input bound to no window accepts every window; one bound to a window only that window. */
  predicate Accepts(bound: Option<nat>, windowId: nat)
  {
    bound.None? || bound.value == windowId
  }

  /** The held-down map of a device. */
  function Held(s: InputState, d: Device): map<Name, bool>
  {
    if d == Mouse then s.buttons else s.keys
  }

  /** The pressed-once map of a device. */
  function Once(s: InputState, d: Device): map<Name, bool>
  {
    if d == Mouse then s.buttonsOnce else s.keysOnce
  }

  /** A map lookup that reads a name never recorded as `false` (`get(..).copied().unwrap_or(false)`). */
  function Flag(m: map<Name, bool>, n: Name): (r: bool)
    ensures r <==> n in m && m[n]
  {
    if n in m then m[n] else false
  }

  /** `process_event`: the state after one event. */
  function Processed(s: InputState, e: Event): InputState
  {
    match e
    case CursorMoved(p, w) =>
      if !Accepts(s.windowId, w) then s else s.(position := CursorPosition(p))
    case MouseInput(b, pressed, w) =>
      if !Accepts(s.windowId, w) then s
      else s.(buttons := s.buttons[b := pressed], buttonsOnce := s.buttonsOnce[b := pressed])
    case KeyboardInput(k, pressed, w) =>
      if !Accepts(s.windowId, w) then s
      else s.(keys := s.keys[k := pressed], keysOnce := s.keysOnce[k := pressed])
    case Other => s
  }

  /** The window an event comes from, if it carries one. */
  function WindowOf(e: Event): Option<nat>
  {
    match e
    case CursorMoved(_, w) => Some(w)
    case MouseInput(_, _, w) => Some(w)
    case KeyboardInput(_, _, w) => Some(w)
    case Other => None
  }

  /** The button or key event of device `d` for name `n` that `e` is, if it is one: its `pressed`. */
  function PressOf(e: Event, d: Device, n: Name): Option<bool>
  {
    match e
    case MouseInput(b, pressed, _) => if d == Mouse && b == n then Some(pressed) else None
    case KeyboardInput(k, pressed, _) => if d == Keyboard && k == n then Some(pressed) else None
    case _ => None
  }

  /**
   * What one event does: the window binding never changes; an event of
   * another window, or one the input does not listen to, changes nothing; a
   * cursor move replaces only the position; a button or key event records
   * `pressed` under its name in both maps of its device, and every other
   * name and the other device are untouched.
   */
  lemma ProcessedEffect(s: InputState, e: Event, d: Device, n: Name)
    ensures Processed(s, e).windowId == s.windowId
    ensures WindowOf(e).None? || !Accepts(s.windowId, WindowOf(e).value) ==> Processed(s, e) == s
    ensures e.CursorMoved? && Accepts(s.windowId, e.windowId) ==>
      Processed(s, e) == s.(position := CursorPosition(e.pos))
    ensures !e.CursorMoved? ==> Processed(s, e).position == s.position
    ensures WindowOf(e).Some? && Accepts(s.windowId, WindowOf(e).value) && PressOf(e, d, n).Some? ==>
      Flag(Held(Processed(s, e), d), n) == PressOf(e, d, n).value &&
      Flag(Once(Processed(s, e), d), n) == PressOf(e, d, n).value
    ensures PressOf(e, d, n).None? ==>
      Flag(Held(Processed(s, e), d), n) == Flag(Held(s, d), n) &&
      Flag(Once(Processed(s, e), d), n) == Flag(Once(s, d), n)
  {
  }

  /** The state after a run of events, oldest first. */
  function Replayed(s: InputState, events: seq<Event>): InputState
  {
    if |events| == 0 then s
    else Processed(Replayed(s, events[..|events| - 1]), events[|events| - 1])
  }

  /** The `pressed` of the newest accepted button or key event for `n`, if any. */
  function LastPress(bound: Option<nat>, events: seq<Event>, d: Device, n: Name): Option<bool>
  {
    if |events| == 0 then None
    else
      var e := events[|events| - 1];
      if WindowOf(e).Some? && Accepts(bound, WindowOf(e).value) && PressOf(e, d, n).Some?
      then PressOf(e, d, n)
      else LastPress(bound, events[..|events| - 1], d, n)
  }

  /**
   * `mouse_pressed` and `key_pressed` report the newest recorded state: for
   * a fresh input, after any run of events a name is held down exactly when
   * the newest accepted event for it pressed it, and a name never seen reads
   * as not pressed.
   */
  lemma {:induction false} HeldIsLastPress(windowId: Option<nat>, events: seq<Event>, d: Device, n: Name)
    ensures Replayed(Initial(windowId), events).windowId == windowId
    ensures Flag(Held(Replayed(Initial(windowId), events), d), n) <==>
      LastPress(windowId, events, d, n) == Some(true)
    ensures Flag(Once(Replayed(Initial(windowId), events), d), n) <==>
      LastPress(windowId, events, d, n) == Some(true)
  {
    if |events| > 0 {
      var prefix := events[..|events| - 1];
      HeldIsLastPress(windowId, prefix, d, n);
      ProcessedEffect(Replayed(Initial(windowId), prefix), events[|events| - 1], d, n);
    }
  }

  /** Events from other windows are invisible to an input bound to a window, however many arrive. */
  lemma {:induction false} ForeignEventsIgnored(s: InputState, events: seq<Event>)
    requires s.windowId.Some?
    requires forall i :: 0 <= i < |events| ==> WindowOf(events[i]) != s.windowId
    ensures Replayed(s, events) == s
  {
    if |events| > 0 {
      var prefix := events[..|events| - 1];
      ForeignEventsIgnored(s, prefix);
      var e := events[|events| - 1];
      assert WindowOf(e) != s.windowId;
      ProcessedEffect(s, e, Mouse, []);
    }
  }

  /**
   * `mouse_pressed_once` / `key_pressed_once`: true exactly when the once
   * flag is set, which it then clears; otherwise nothing changes.
   */
  function TakeOnce(s: InputState, d: Device, n: Name): (InputState, bool)
  {
    if n in Once(s, d) && Once(s, d)[n] then
      (if d == Mouse then s.(buttonsOnce := s.buttonsOnce[n := false])
       else s.(keysOnce := s.keysOnce[n := false]), true)
    else (s, false)
  }

  /**
   * Taking the once flag reports whether it was set and leaves it cleared;
   * the held-down maps, the position, the other device and every other name
   * keep their values.
   */
  lemma TakeOnceEffect(s: InputState, d: Device, n: Name, other: Name)
    ensures TakeOnce(s, d, n).1 <==> Flag(Once(s, d), n)
    ensures !Flag(Once(TakeOnce(s, d, n).0, d), n)
    ensures other != n ==> Flag(Once(TakeOnce(s, d, n).0, d), other) == Flag(Once(s, d), other)
    ensures var t := TakeOnce(s, d, n).0;
      t.windowId == s.windowId && t.position == s.position &&
      t.buttons == s.buttons && t.keys == s.keys
    ensures d == Mouse ==> TakeOnce(s, d, n).0.keysOnce == s.keysOnce
    ensures d == Keyboard ==> TakeOnce(s, d, n).0.buttonsOnce == s.buttonsOnce
  {
  }

  /** A second query straight after the first reports false. */
  lemma SecondTakeIsFalse(s: InputState, d: Device, n: Name)
    ensures !TakeOnce(TakeOnce(s, d, n).0, d, n).1
  {
    TakeOnceEffect(s, d, n, n);
  }

  /**
   * A press is reported once: after an accepted event pressing `n`, the first
   * query is true and the next one false, while the held-down state stays true.
   */
  lemma PressReportedOnce(s: InputState, e: Event, d: Device, n: Name)
    requires PressOf(e, d, n) == Some(true)
    requires Accepts(s.windowId, WindowOf(e).value)
    ensures var (t1, first) := TakeOnce(Processed(s, e), d, n);
      first && !TakeOnce(t1, d, n).1 && Flag(Held(t1, d), n)
  {
    var p := Processed(s, e);
    ProcessedEffect(s, e, d, n);
    TakeOnceEffect(p, d, n, n);
    SecondTakeIsFalse(p, d, n);
  }

  /** `InputInner` together with the `Input` handle's queries. */
  class InputInner {
    const windowId: Option<nat>
    var mousePosition: Point2
    var mouseButtons: map<Name, bool>
    var mouseButtonsOnce: map<Name, bool>
    var keyboardKeys: map<Name, bool>
    var keyboardKeysOnce: map<Name, bool>

    /** The fields as one value. */
    function State(): InputState
      reads this
    {
      InputState(windowId, mousePosition, mouseButtons, mouseButtonsOnce, keyboardKeys, keyboardKeysOnce)
    }

    /** `Input::new`: the default state bound to `windowId`. */
    constructor(windowId: Option<nat>)
      ensures State() == Initial(windowId)
    {
      this.windowId := windowId;
      mousePosition := ORIGIN;
      mouseButtons := map[];
      mouseButtonsOnce := map[];
      keyboardKeys := map[];
      keyboardKeysOnce := map[];
    }

    /** `process_event`. */
    method ProcessEvent(e: Event)
      modifies this
      ensures State() == Processed(old(State()), e)
    {
      match e {
        case CursorMoved(p, w) =>
          if windowId.Some? && windowId != Some(w) {
            return;
          }
          mousePosition := CursorPosition(p);
        case MouseInput(b, pressed, w) =>
          if windowId.Some? && windowId != Some(w) {
            return;
          }
          mouseButtons := mouseButtons[b := pressed];
          mouseButtonsOnce := mouseButtonsOnce[b := pressed];
        case KeyboardInput(k, pressed, w) =>
          if windowId.Some? && windowId != Some(w) {
            return;
          }
          keyboardKeys := keyboardKeys[k := pressed];
          keyboardKeysOnce := keyboardKeysOnce[k := pressed];
        case Other =>
      }
    }

    /** `mouse_position`. */
    method MousePosition() returns (p: Point2)
      ensures p == mousePosition
    {
      p := mousePosition;
    }

    /** `mouse_pressed`: the recorded state of the button, false when never seen. */
    method MousePressed(button: Name) returns (r: bool)
      ensures r <==> button in mouseButtons && mouseButtons[button]
    {
      r := false;
      if button in mouseButtons {
        r := mouseButtons[button];
      }
    }

    /** `key_pressed`: the recorded state of the key, false when never seen. */
    method KeyPressed(key: Name) returns (r: bool)
      ensures r <==> key in keyboardKeys && keyboardKeys[key]
    {
      r := false;
      if key in keyboardKeys {
        r := keyboardKeys[key];
      }
    }

    /** `mouse_pressed_once`. */
    method MousePressedOnce(button: Name) returns (r: bool)
      modifies this
      ensures (State(), r) == TakeOnce(old(State()), Mouse, button)
    {
      if button in mouseButtonsOnce && mouseButtonsOnce[button] {
        mouseButtonsOnce := mouseButtonsOnce[button := false];
        return true;
      }
      return false;
    }

    /** `key_pressed_once`. */
    method KeyPressedOnce(key: Name) returns (r: bool)
      modifies this
      ensures (State(), r) == TakeOnce(old(State()), Keyboard, key)
    {
      if key in keyboardKeysOnce && keyboardKeysOnce[key] {
        keyboardKeysOnce := keyboardKeysOnce[key := false];
        return true;
      }
      return false;
    }
  }
}
