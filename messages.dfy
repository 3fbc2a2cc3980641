/** The messages that the input, logic and physics components exchange
    (Ballz.Core/Messages/InputMessage.cs and the message kinds its base class
    and siblings define). */
module Messages {
  import opened Geometry

  /** The thirteen logical controls an input can stand for. */
  datatype ControlButton =
    | ControlsText
    | ControlsConsole
    | ControlsUp
    | ControlsDown
    | ControlsLeft
    | ControlsRight
    | ControlsAction
    | ControlsJump
    | ControlsBack
    | ControlsNextWeapon
    | ControlsPreviousWeapon
    | RawBack
    | RawInput

  /** Every control, in declaration order. */
  const AllControls: seq<ControlButton> := [
    ControlsText, ControlsConsole, ControlsUp, ControlsDown, ControlsLeft,
    ControlsRight, ControlsAction, ControlsJump, ControlsBack,
    ControlsNextWeapon, ControlsPreviousWeapon, RawBack, RawInput
  ]

  /** The player a message is addressed to. The source passes the match's
      player object looked up by number, or null when no match exists; the
      model keeps the number it was looked up by. */
  datatype PlayerRef = NoPlayer | PlayerNumber(n: nat)

  /** `Ballz.The().Match?.PlayerByNumber(n)`. */
  function PlayerByNumber(hasMatch: bool, n: nat): PlayerRef
  {
    if hasMatch then PlayerNumber(n) else NoPlayer
  }

  /** An input message. Its properties have private setters, so a value
      type is the faithful model: nothing can change it after construction. */
  datatype InputMessage = InputMessage(
    control: ControlButton,
    pressed: Option<bool>,
    key: Option<char>,
    player: PlayerRef)

  /** Identifies a menu item (a `Composite` menu, an `InputBox`, ...). */
  type ItemRef = nat

  datatype MessageType = InputMessageKind | LogicMessageKind | MenuMessageKind | NetworkMessageKind

  datatype LogicMessageType = GameMessage | PerformanceMessage

  datatype NetworkMessageType = ConnectedToServer

  /** A message of any kind, tagged by the subclass that carries it. */
  datatype Message =
    | Input(input: InputMessage)
    | Logic(logic: LogicMessageType)
    | Menu(item: ItemRef)
    | Network(network: NetworkMessageType)
  {
    /** The `Kind` property that the base-class constructor fixes. */
    function Kind(): MessageType
    {
      match this
      case Input(_) => InputMessageKind
      case Logic(_) => LogicMessageKind
      case Menu(_) => MenuMessageKind
      case Network(_) => NetworkMessageKind
    }
  }

  /** The constructor `InputMessage(key, pressed, value, player)`: note that
      its parameter `key` is the control and `value` the character. */
  function NewInputMessage(key: ControlButton, pressed: Option<bool>, value: Option<char>, player: PlayerRef): (m: Message)
    ensures m.Kind() == InputMessageKind
    ensures m.Input? && m.input.control == key && m.input.pressed == pressed
    ensures m.input.key == value && m.input.player == player
  {
    Input(InputMessage(key, pressed, value, player))
  }

  /** `ControlButton` has exactly thirteen distinct values. */
  lemma ControlButtonHasThirteenValues()
    ensures |AllControls| == 13
    ensures forall i, j :: 0 <= i < j < |AllControls| ==> AllControls[i] != AllControls[j]
    ensures forall c: ControlButton :: c in AllControls
  {
    forall c: ControlButton ensures c in AllControls {
      match c
      case ControlsText => assert AllControls[0] == c;
      case ControlsConsole => assert AllControls[1] == c;
      case ControlsUp => assert AllControls[2] == c;
      case ControlsDown => assert AllControls[3] == c;
      case ControlsLeft => assert AllControls[4] == c;
      case ControlsRight => assert AllControls[5] == c;
      case ControlsAction => assert AllControls[6] == c;
      case ControlsJump => assert AllControls[7] == c;
      case ControlsBack => assert AllControls[8] == c;
      case ControlsNextWeapon => assert AllControls[9] == c;
      case ControlsPreviousWeapon => assert AllControls[10] == c;
      case RawBack => assert AllControls[11] == c;
      case RawInput => assert AllControls[12] == c;
    }
  }
}
