/** The input translator of Ballz.Core/Input/InputTranslator.cs: turns
    keyboard and gamepad states into `InputMessage`s. Hardware reads are
    parameters: each update receives the keyboard's pressed keys and the four
    pads' states. The `GameInput` event is modelled as the log `emitted` of
    every message raised, in order. */
module Input {
  import opened Geometry
  import opened Messages

  /** The keys the translator maps, and every other key. */
  datatype Key =
    | OemTilde | OemPipe | F1 | Escape
    | LeftControl | Up | Down | Left | Right | Enter | RightControl | Space | PageUp | PageDown
    | W | S | A | D | E | Q
    | OtherKey(code: int)

  /** The runtime's platform identifier. */
  datatype Platform = Win32NT | Unix | MacOSX | OtherPlatform

  /** The part of a `GamePadState` the translator reads; `true` is `Pressed`. */
  datatype PadState = PadState(
    isConnected: bool,
    dpadUp: bool, dpadDown: bool, dpadLeft: bool, dpadRight: bool,
    buttonA: bool, buttonB: bool, buttonX: bool, leftStickButton: bool,
    stickX: real, stickY: real)

  /** `default(GamePadState)`: disconnected, nothing pressed, sticks centred. */
  const DefaultPad: PadState :=
    PadState(false, false, false, false, false, false, false, false, false, 0.0, 0.0)

  // ---------------------------------------------------------------------------
  // Keyboard

  /** The elements of `a` that do not occur in `b`, in `a`'s order, duplicates kept. */
  function Difference(a: seq<Key>, b: seq<Key>): seq<Key>
  {
    if a == [] then []
    else (if a[0] in b then [] else [a[0]]) + Difference(a[1..], b)
  }

  lemma {:induction false} DifferenceMembers(a: seq<Key>, b: seq<Key>)
    ensures forall k :: k in Difference(a, b) <==> k in a && k !in b
  {
    if a != [] {
      DifferenceMembers(a[1..], b);
      assert a == [a[0]] + a[1..];
    }
  }

  /** A state compared with itself has no changed keys. */
  lemma {:induction false} DifferenceWithSelf(a: seq<Key>)
    ensures Difference(a, a) == []
  {
    DifferenceMembers(a, a);
    if Difference(a, a) != [] {
      assert Difference(a, a)[0] in Difference(a, a);
    }
  }

  /** Pressed keys (current minus previous) and released keys (previous minus
      current) never share a key. */
  lemma PressedAndReleasedDisjoint(current: seq<Key>, previous: seq<Key>)
    ensures forall k :: k in Difference(current, previous) ==> k !in Difference(previous, current)
  {
    DifferenceMembers(current, previous);
    DifferenceMembers(previous, current);
  }

  /** The switch of `EmitKeyMessages`: the message one key produces, if any. */
  function KeyMessage(k: Key, pressed: bool, hasMatch: bool): Option<InputMessage>
  {
    var one := PlayerByNumber(hasMatch, 1);
    var two := PlayerByNumber(hasMatch, 2);
    match k
    case OemTilde => Some(InputMessage(ControlsConsole, Some(pressed), None, NoPlayer))
    case OemPipe => Some(InputMessage(ControlsConsole, Some(pressed), None, NoPlayer))
    case F1 => Some(InputMessage(ControlsConsole, Some(pressed), None, NoPlayer))
    case Escape => Some(InputMessage(ControlsBack, Some(pressed), None, NoPlayer))
    case LeftControl => Some(InputMessage(ControlsAction, Some(pressed), None, one))
    case Up => Some(InputMessage(ControlsUp, Some(pressed), None, one))
    case Down => Some(InputMessage(ControlsDown, Some(pressed), None, one))
    case Left => Some(InputMessage(ControlsLeft, Some(pressed), None, one))
    case Right => Some(InputMessage(ControlsRight, Some(pressed), None, one))
    case Enter => Some(InputMessage(ControlsAction, Some(pressed), None, one))
    case RightControl => Some(InputMessage(ControlsAction, Some(pressed), None, one))
    case Space => Some(InputMessage(ControlsJump, Some(pressed), None, one))
    case PageUp => Some(InputMessage(ControlsPreviousWeapon, Some(pressed), None, one))
    case PageDown => Some(InputMessage(ControlsNextWeapon, Some(pressed), None, one))
    case W => Some(InputMessage(ControlsUp, Some(pressed), None, two))
    case S => Some(InputMessage(ControlsDown, Some(pressed), None, two))
    case A => Some(InputMessage(ControlsLeft, Some(pressed), None, two))
    case D => Some(InputMessage(ControlsRight, Some(pressed), None, two))
    case E => Some(InputMessage(ControlsAction, Some(pressed), None, two))
    case Q => Some(InputMessage(ControlsJump, Some(pressed), None, two))
    case OtherKey(_) => None
  }

  predicate PlayerOneKey(k: Key)
  {
    k in {LeftControl, Up, Down, Left, Right, Enter, RightControl, Space, PageUp, PageDown}
  }

  predicate PlayerTwoKey(k: Key)
  {
    k in {W, S, A, D, E, Q}
  }

  /** The key table routes the arrows and the action keys to player 1, WASD,
      E and Q to player 2, Escape and the console keys to no player, and
      drops every other key; each message carries the given pressed flag. */
  lemma KeyTable(k: Key, pressed: bool, hasMatch: bool)
    ensures var m := KeyMessage(k, pressed, hasMatch);
            && (m.Some? <==> !k.OtherKey?)
            && (m.Some? ==> m.value.pressed == Some(pressed) && m.value.key == None)
            && (PlayerOneKey(k) ==> m.Some? && m.value.player == PlayerByNumber(hasMatch, 1))
            && (PlayerTwoKey(k) ==> m.Some? && m.value.player == PlayerByNumber(hasMatch, 2))
            && (k == Escape ==> m == Some(InputMessage(ControlsBack, Some(pressed), None, NoPlayer)))
            && (k in {OemTilde, OemPipe, F1} ==> m == Some(InputMessage(ControlsConsole, Some(pressed), None, NoPlayer)))
  {
  }

  /** The messages `EmitKeyMessages(keys, pressed)` raises, in order. */
  function KeyMessages(keys: seq<Key>, pressed: bool, hasMatch: bool): seq<InputMessage>
  {
    if keys == [] then []
    else
      (match KeyMessage(keys[0], pressed, hasMatch) case Some(m) => [m] case None => [])
      + KeyMessages(keys[1..], pressed, hasMatch)
  }

  /** The keys of a list that the table maps. */
  function MappedKeys(keys: seq<Key>): seq<Key>
  {
    if keys == [] then [] else (if keys[0].OtherKey? then [] else [keys[0]]) + MappedKeys(keys[1..])
  }

  /** One message per mapped key, each carrying the given pressed flag. */
  lemma {:induction false} KeyMessagesOnePerMappedKey(keys: seq<Key>, pressed: bool, hasMatch: bool)
    ensures |KeyMessages(keys, pressed, hasMatch)| == |MappedKeys(keys)|
    ensures forall m :: m in KeyMessages(keys, pressed, hasMatch) ==> m.pressed == Some(pressed)
  {
    if keys != [] {
      KeyMessagesOnePerMappedKey(keys[1..], pressed, hasMatch);
    }
  }

  /** What `ProcessControlInput` raises: the pressed keys' messages, then the released keys'. */
  function ControlMessages(current: seq<Key>, previous: seq<Key>, hasMatch: bool): seq<InputMessage>
  {
    KeyMessages(Difference(current, previous), true, hasMatch)
      + KeyMessages(Difference(previous, current), false, hasMatch)
  }

  /** Every pressed=true message comes before every pressed=false one. */
  lemma PressesPrecedeReleases(current: seq<Key>, previous: seq<Key>, hasMatch: bool)
    ensures var ms := ControlMessages(current, previous, hasMatch);
            forall i, j :: 0 <= i < j < |ms| && ms[i].pressed == Some(false) ==> ms[j].pressed == Some(false)
  {
    var p := KeyMessages(Difference(current, previous), true, hasMatch);
    var r := KeyMessages(Difference(previous, current), false, hasMatch);
    KeyMessagesOnePerMappedKey(Difference(current, previous), true, hasMatch);
    KeyMessagesOnePerMappedKey(Difference(previous, current), false, hasMatch);
    var ms := p + r;
    forall i, j | 0 <= i < j < |ms| && ms[i].pressed == Some(false) ensures ms[j].pressed == Some(false) {
      if i < |p| {
        assert false;
      }
      assert ms[j] == r[j - |p|] && r[j - |p|] in r;
    }
  }

  /** Unchanged keyboard input raises nothing. */
  lemma SameKeysNoMessages(keys: seq<Key>, hasMatch: bool)
    ensures ControlMessages(keys, keys, hasMatch) == []
  {
    DifferenceWithSelf(keys);
  }

  // ---------------------------------------------------------------------------
  // Gamepad

  /** Whether the stick's Y axis is multiplied by -1 rather than 1. The test
      `Platform != Unix || Platform != MacOSX` holds on every platform, so
      the axis is always flipped. */
  function FlipsStickY(platform: Platform): (flipY: bool)
    ensures flipY
  {
    platform != Unix || platform != MacOSX
  }

  /** One (possibly virtual) pad button between two frames: whether it was
      held before, whether it is held now, and the control it stands for. */
  datatype Edge = Edge(was: bool, now: bool, control: ControlButton)

  predicate Rising(e: Edge) { !e.was && e.now }
  predicate Falling(e: Edge) { e.was && !e.now }

  /** Which of the twelve tested inputs count as held: the D-pad, B, A, X,
      the stick deflected past 0.5 in each direction, and the stick button. */
  datatype Buttons = Buttons(
    dpadUp: bool, dpadDown: bool, dpadLeft: bool, dpadRight: bool,
    b: bool, a: bool, x: bool,
    stickRight: bool, stickLeft: bool, stickDown: bool, stickUp: bool,
    stickButton: bool)

  /** The stick's Y deflection multiplied by the platform sign (-1 or 1). */
  function SignedY(p: PadState, flipY: bool): real { if flipY then -p.stickY else p.stickY }

  /** The held inputs of a pad state; the Y axis is read after the sign. */
  function Held(p: PadState, flipY: bool): Buttons
  {
    Buttons(p.dpadUp, p.dpadDown, p.dpadLeft, p.dpadRight,
            p.buttonB, p.buttonA, p.buttonX,
            p.stickX > 0.5, p.stickX < -0.5, SignedY(p, flipY) > 0.5, SignedY(p, flipY) < -0.5,
            p.leftStickButton)
  }

  /** The twelve inputs the translator tests. */
  datatype PadInput =
    | DpadUp | DpadDown | DpadLeft | DpadRight
    | ButtonB | ButtonA | ButtonX
    | StickRight | StickLeft | StickDown | StickUp
    | StickButton

  function IsHeld(b: Buttons, i: PadInput): bool
  {
    match i
    case DpadUp => b.dpadUp
    case DpadDown => b.dpadDown
    case DpadLeft => b.dpadLeft
    case DpadRight => b.dpadRight
    case ButtonB => b.b
    case ButtonA => b.a
    case ButtonX => b.x
    case StickRight => b.stickRight
    case StickLeft => b.stickLeft
    case StickDown => b.stickDown
    case StickUp => b.stickUp
    case StickButton => b.stickButton
  }

  /** The control an input raises messages for: B is Back, A is Action, X
      and the stick button are Jump, and each stick direction doubles its
      D-pad direction. */
  function ControlOf(i: PadInput): ControlButton
  {
    match i
    case DpadUp => ControlsUp
    case DpadDown => ControlsDown
    case DpadLeft => ControlsLeft
    case DpadRight => ControlsRight
    case ButtonB => ControlsBack
    case ButtonA => ControlsAction
    case ButtonX => ControlsJump
    case StickRight => ControlsRight
    case StickLeft => ControlsLeft
    case StickDown => ControlsDown
    case StickUp => ControlsUp
    case StickButton => ControlsJump
  }

  /** The order in which the source tests the inputs for presses ... */
  const PressOrder: seq<PadInput> := [
    DpadUp, DpadDown, DpadLeft, DpadRight, ButtonB, ButtonA, ButtonX,
    StickRight, StickLeft, StickDown, StickUp, StickButton
  ]

  /** ... and for releases. */
  const ReleaseOrder: seq<PadInput> := [
    StickRight, StickLeft, StickDown, StickUp, StickButton,
    DpadUp, DpadDown, DpadLeft, DpadRight, ButtonB, ButtonA, ButtonX
  ]

  /** Each input of `order` between two frames. */
  function Edges(prev: Buttons, cur: Buttons, order: seq<PadInput>): (r: seq<Edge>)
    ensures |r| == |order|
    ensures forall j :: 0 <= j < |r| ==> r[j] == Edge(IsHeld(prev, order[j]), IsHeld(cur, order[j]), ControlOf(order[j]))
  {
    seq(|order|, j requires 0 <= j < |order| => Edge(IsHeld(prev, order[j]), IsHeld(cur, order[j]), ControlOf(order[j])))
  }

  function PressEdges(prev: Buttons, cur: Buttons): seq<Edge>
  {
    Edges(prev, cur, PressOrder)
  }

  function ReleaseEdges(prev: Buttons, cur: Buttons): seq<Edge>
  {
    Edges(prev, cur, ReleaseOrder)
  }

  /** A pressed=true message for each button that went from released to pressed. */
  function Presses(edges: seq<Edge>, player: PlayerRef): seq<InputMessage>
  {
    if edges == [] then []
    else (if Rising(edges[0]) then [InputMessage(edges[0].control, Some(true), None, player)] else [])
         + Presses(edges[1..], player)
  }

  /** A pressed=false message for each button that went from pressed to released. */
  function Releases(edges: seq<Edge>, player: PlayerRef): seq<InputMessage>
  {
    if edges == [] then []
    else (if Falling(edges[0]) then [InputMessage(edges[0].control, Some(false), None, player)] else [])
         + Releases(edges[1..], player)
  }

  lemma {:induction false} PressesMembers(edges: seq<Edge>, player: PlayerRef)
    ensures forall m :: m in Presses(edges, player) <==>
              exists e :: e in edges && Rising(e) && m == InputMessage(e.control, Some(true), None, player)
  {
    if edges != [] {
      PressesMembers(edges[1..], player);
      assert edges == [edges[0]] + edges[1..];
    }
  }

  lemma {:induction false} ReleasesMembers(edges: seq<Edge>, player: PlayerRef)
    ensures forall m :: m in Releases(edges, player) <==>
              exists e :: e in edges && Falling(e) && m == InputMessage(e.control, Some(false), None, player)
  {
    if edges != [] {
      ReleasesMembers(edges[1..], player);
      assert edges == [edges[0]] + edges[1..];
    }
  }

  /** All presses, then all releases, between two sets of held inputs. */
  function ButtonMessages(prev: Buttons, cur: Buttons, player: PlayerRef): seq<InputMessage>
  {
    Presses(PressEdges(prev, cur), player) + Releases(ReleaseEdges(prev, cur), player)
  }

  /** What `ProcessGamePadInput` raises for a pad: nothing unless it is
      connected, otherwise the messages for its held inputs. */
  function PadMessages(prev: PadState, cur: PadState, flipY: bool, player: PlayerRef): seq<InputMessage>
  {
    if cur.isConnected then ButtonMessages(Held(prev, flipY), Held(cur, flipY), player) else []
  }

  /** The messages raised for pads 1..n, in order. */
  function PadsMessages(prev: seq<PadState>, cur: seq<PadState>, n: nat, flipY: bool, hasMatch: bool): seq<InputMessage>
    requires n <= |prev| && n <= |cur|
  {
    if n == 0 then []
    else PadsMessages(prev, cur, n - 1, flipY, hasMatch)
         + PadMessages(prev[n - 1], cur[n - 1], flipY, PlayerByNumber(hasMatch, n))
  }

  /** One more pad's messages. */
  lemma PadsMessagesStep(prev: seq<PadState>, cur: seq<PadState>, n: nat, flipY: bool, hasMatch: bool)
    requires 0 < n <= |prev| && n <= |cur|
    ensures PadsMessages(prev, cur, n, flipY, hasMatch)
      == PadsMessages(prev, cur, n - 1, flipY, hasMatch) + PadMessages(prev[n - 1], cur[n - 1], flipY, PlayerByNumber(hasMatch, n))
  {
  }

  /** The translator's state: the last two keyboard states, the previous
      state of each of the four pads, and the log of raised messages. */
  class InputTranslator {
    var previousState: seq<Key>
    var currentState: seq<Key>
    const previousGamePadState: array<PadState>
    var emitted: seq<InputMessage>

    ghost predicate Valid()
      reads this
    {
      previousGamePadState.Length == 4
    }

    /** Both keyboard states start as the current one; pads start at their defaults. */
    constructor (keyboard: seq<Key>)
      ensures Valid() && fresh(previousGamePadState)
      ensures previousState == keyboard && currentState == keyboard && emitted == []
      ensures previousGamePadState[..] == [DefaultPad, DefaultPad, DefaultPad, DefaultPad]
    {
      previousState := keyboard;
      currentState := keyboard;
      previousGamePadState := new PadState[4](_ => DefaultPad);
      emitted := [];
    }

    /** `ChangedKeys(a, b)`: for each key of a, a flag cleared by any equal key in b. */
    method ChangedKeys(a: seq<Key>, b: seq<Key>) returns (result: seq<Key>)
      ensures result == Difference(a, b)
    {
      result := [];
      var i := 0;
      while i < |a|
        invariant 0 <= i <= |a|
        invariant Difference(a, b) == result + Difference(a[i..], b)
      {
        var keyA := a[i];
        var keyChanged := true;
        var j := 0;
        while j < |b|
          invariant 0 <= j <= |b|
          invariant keyChanged <==> keyA !in b[..j]
        {
          if keyA == b[j] {
            keyChanged := false;
          }
          assert b[..j + 1] == b[..j] + [b[j]];
          j := j + 1;
        }
        assert b[..j] == b;
        assert a[i..] == [a[i]] + a[i + 1..];
        if keyChanged {
          AppendAssociates(result, [keyA], Difference(a[i + 1..], b));
          result := result + [keyA];
        }
        i := i + 1;
      }
    }

    /** Raises one message per mapped key, in list order. */
    method EmitKeyMessages(keyList: seq<Key>, pressed: bool, hasMatch: bool)
      modifies this`emitted
      ensures emitted == old(emitted) + KeyMessages(keyList, pressed, hasMatch)
    {
      var i := 0;
      while i < |keyList|
        invariant 0 <= i <= |keyList|
        invariant old(emitted) + KeyMessages(keyList, pressed, hasMatch) == emitted + KeyMessages(keyList[i..], pressed, hasMatch)
      {
        assert keyList[i..] == [keyList[i]] + keyList[i + 1..];
        var m := KeyMessage(keyList[i], pressed, hasMatch);
        if m.Some? {
          AppendAssociates(emitted, [m.value], KeyMessages(keyList[i + 1..], pressed, hasMatch));
          emitted := emitted + [m.value];
        }
        i := i + 1;
      }
    }

    /** Pressed keys are those down now and not before; released the reverse.
        Presses are raised before releases. */
    method ProcessControlInput(hasMatch: bool)
      modifies this`emitted
      ensures emitted == old(emitted) + ControlMessages(currentState, previousState, hasMatch)
    {
      var pressedKeys := ChangedKeys(currentState, previousState);
      var releasedKeys := ChangedKeys(previousState, currentState);
      EmitKeyMessages(pressedKeys, true, hasMatch);
      EmitKeyMessages(releasedKeys, false, hasMatch);
    }

    /** A typed character becomes a `ControlsText` message. */
    method ProcessTextInput(c: char)
      modifies this`emitted
      ensures emitted == old(emitted) + [InputMessage(ControlsText, Some(true), Some(c), NoPlayer)]
    {
      emitted := emitted + [InputMessage(ControlsText, Some(true), Some(c), NoPlayer)];
    }

    /** Pad p (1 to 4) in state `current`: raises its transitions when it is
        connected and records the state as previous either way. */
    method ProcessGamePadInput(p: nat, current: PadState, platform: Platform, hasMatch: bool)
      requires Valid() && 1 <= p <= 4
      modifies previousGamePadState, this`emitted
      ensures emitted == old(emitted) +
        PadMessages(old(previousGamePadState[p - 1]), current, true, PlayerByNumber(hasMatch, p))
      ensures previousGamePadState[p - 1] == current
      ensures forall q :: 0 <= q < 4 && q != p - 1 ==> previousGamePadState[q] == old(previousGamePadState[q])
    {
      var flipY := false;
      if platform != Unix || platform != MacOSX {
        flipY := true;
      }
      if current.isConnected {
        var player := PlayerByNumber(hasMatch, p);
        emitted := emitted + PadMessages(previousGamePadState[p - 1], current, flipY, player);
      }
      previousGamePadState[p - 1] := current;
    }

    /** The pad half of a frame: pads 1 to 4 in turn. */
    method UpdatePads(pads: seq<PadState>, platform: Platform, hasMatch: bool)
      requires Valid() && |pads| == 4
      modifies previousGamePadState, this`emitted
      ensures previousGamePadState[..] == pads
      ensures emitted == old(emitted) + PadsMessages(old(previousGamePadState[..]), pads, 4, true, hasMatch)
    {
      ghost var before := previousGamePadState[..];
      for i := 1 to 5
        invariant forall q :: 0 <= q < i - 1 ==> previousGamePadState[q] == pads[q]
        invariant forall q :: i - 1 <= q < 4 ==> previousGamePadState[q] == before[q]
        invariant emitted == old(emitted) + PadsMessages(before, pads, i - 1, true, hasMatch)
      {
        assert previousGamePadState[i - 1] == before[i - 1];
        ProcessGamePadInput(i, pads[i - 1], platform, hasMatch);
        PadsMessagesStep(before, pads, i, true, hasMatch);
        AppendAssociates(old(emitted), PadsMessages(before, pads, i - 1, true, hasMatch),
          PadMessages(before[i - 1], pads[i - 1], true, PlayerByNumber(hasMatch, i)));
      }
    }

    /** One frame: every pad, then the keyboard, whose messages are raised
        and whose state becomes the previous one only when it changed. */
    method Update(keyboard: seq<Key>, pads: seq<PadState>, platform: Platform, hasMatch: bool)
      requires Valid() && |pads| == 4
      modifies previousGamePadState, this`emitted, this`currentState, this`previousState
      ensures previousGamePadState[..] == pads
      ensures currentState == keyboard && previousState == keyboard
      ensures emitted == old(emitted)
        + PadsMessages(old(previousGamePadState[..]), pads, 4, true, hasMatch)
        + (if keyboard != old(previousState) then ControlMessages(keyboard, old(previousState), hasMatch) else [])
    {
      UpdatePads(pads, platform, hasMatch);
      currentState := keyboard;
      if currentState != previousState {
        ProcessControlInput(hasMatch);
        previousState := currentState;
      }
    }
  }
}
