/** The game-state machine (Ballz.Core/Logic/LogicControl.cs): input
    messages drive either the menus or the running game; a stack of menus
    records how deep the user has gone; what the logic tells the rest of the
    game is kept as a log of effects. The menu library (its items, their
    selection and activation) is a collaborator: the calls the logic makes
    into it are logged, and its select and unselect events call back into
    the handlers registered here.

    The functions below say what each operation does to the whole state
    (`Machine`); the methods of `LogicControl` do it field by field and are
    proved to agree with them. */
module Logic {
  import opened Geometry
  import opened Messages

  datatype GameState = MenuState | SimulationState

  /** A menu of the menu library; `selectedItem` is its `SelectedItem`,
      None when it is null. */
  class Composite {
    const id: ItemRef
    var selectedItem: Option<Item>

    constructor (id: ItemRef, selectedItem: Option<Item>)
      ensures this.id == id && this.selectedItem == selectedItem
    {
      this.id := id;
      this.selectedItem := selectedItem;
    }
  }

  /** The item classes whose select handlers the logic registers; every other
      item class is `OtherItem`. */
  datatype ItemKind = SubMenu(menu: Composite) | BackItem | InputBoxItem | OtherItem

  /** A menu item: its kind, its identity, and whether it implements
      `IChooseable` and `IRawInputConsumer`. A `SubMenu` item is the
      composite it opens, so its `id` and its `menu.id` name one object.
      Nothing here relies on that: the item's `id` appears only in the
      `Activated` effect, the composite's only in the stack and in the
      `Menu` messages, and no contract compares the two. */
  datatype Item = Item(kind: ItemKind, id: ItemRef, chooseable: bool, rawConsumer: bool)

  /** What the logic does to the world outside it, in order. */
  datatype Effect =
    | Raised(message: Message)
    | Exited
    | Activated(item: ItemRef)
    | Deactivated(item: ItemRef)
    | SelectedPrevious(menu: ItemRef)
    | SelectedNext(menu: ItemRef)
    | SelectedIndex(menu: ItemRef, index: nat)
    | ChosePrevious(item: ItemRef)
    | ChoseNext(item: ItemRef)
    | HandledRawKey(item: ItemRef, key: char)
    | HandledBackspace(item: ItemRef)
    | MatchDisposed
    | MatchStarted

  /** How handling ends: normally, by the exception that `Pressed.Value`
      throws on a null `Pressed`, or by the exception that `Peek` throws
      once a pop has emptied the menu stack. */
  datatype Outcome = Handled | NullPressed | EmptyMenuStack

  /** The logic's whole state: the menu stack (bottom first, `Peek` is the
      last element), the game state, the raw-input flag, whether a match
      exists, and the effects so far. */
  datatype Machine = Machine(stack: seq<Composite>, state: GameState, rawInput: bool, hasMatch: bool, effects: seq<Effect>)

  datatype Step = Step(after: Machine, outcome: Outcome)

  function Emit(m: Machine, e: seq<Effect>): Machine
  {
    m.(effects := m.effects + e)
  }

  function Top(m: Machine): Composite
    requires |m.stack| >= 1
  {
    m.stack[|m.stack| - 1]
  }

  /** The effects a step added. */
  function Added(m: Machine, r: Step): seq<Effect>
    requires |m.effects| <= |r.after.effects|
  {
    r.after.effects[|m.effects|..]
  }

  // The handlers of `RegisterMenuEvents`

  /** Pops the menu stack and announces the menu now on top. */
  function PopSpec(m: Machine): (r: Step)
    requires |m.stack| >= 1
    ensures r.after.stack == m.stack[..|m.stack| - 1]
    ensures r.after.(stack := m.stack, effects := m.effects) == m
    ensures r.outcome == Handled <==> |m.stack| >= 2
    ensures r.outcome == Handled ==> r.after.effects == m.effects + [Raised(Menu(Top(r.after).id))]
    ensures r.outcome != Handled ==> r.outcome == EmptyMenuStack && r.after.effects == m.effects
  {
    var s := m.stack[..|m.stack| - 1];
    if s == [] then Step(m.(stack := s), EmptyMenuStack)
    else Step(m.(stack := s, effects := m.effects + [Raised(Menu(s[|s| - 1].id))]), Handled)
  }

  /** `item.Activate()`: the menu library raises the item's select event,
      which reaches the handler registered for the item's class: a submenu
      is pushed, a back item pops, an input box turns raw input on. */
  function SelectSpec(m: Machine, item: Item): (r: Step)
    requires |m.stack| >= 1
    ensures r.after.state == m.state && r.after.hasMatch == m.hasMatch
    ensures item.kind.SubMenu? ==> r.outcome == Handled && r.after.stack == m.stack + [item.kind.menu]
    ensures item.kind.BackItem? ==> r.after.stack == m.stack[..|m.stack| - 1]
    ensures item.kind.InputBoxItem? ==> r.outcome == Handled && r.after.stack == m.stack && r.after.rawInput
    ensures item.kind.OtherItem? ==> r.after == Emit(m, [Activated(item.id)]) && r.outcome == Handled
    ensures r.outcome == Handled ==> |r.after.stack| >= 1
    ensures m.effects <= r.after.effects
  {
    var m1 := Emit(m, [Activated(item.id)]);
    match item.kind
    case SubMenu(c) => Step(Emit(m1.(stack := m1.stack + [c]), [Raised(Menu(c.id))]), Handled)
    case BackItem => PopSpec(m1)
    case InputBoxItem => Step(Emit(m1.(rawInput := true), [Raised(Menu(item.id))]), Handled)
    case OtherItem => Step(m1, Handled)
  }

  /** The item `MenuGoBack` deactivates: the selected item of the menu, or
      the menu itself when nothing is selected. */
  function GoBackTarget(top: Composite): ItemRef
    reads top
  {
    if top.selectedItem.Some? then top.selectedItem.value.id else top.id
  }

  /** `MenuGoBack`: the target is deactivated, and its unselect event leaves
      the current menu when the item's own test (`!Selectable || !Active &&
      !ActiveChanged`, evaluated by the menu library) holds; `leaves` is the
      result of that test. */
  function GoBackSpec(m: Machine, leaves: bool): (r: Step)
    requires |m.stack| >= 1
    reads m.stack
    ensures |r.after.effects| > |m.effects| && r.after.effects[|m.effects|] == Deactivated(GoBackTarget(Top(m)))
    ensures r.after.state == m.state && r.after.rawInput == m.rawInput && r.after.hasMatch == m.hasMatch
    ensures !leaves ==> r.outcome == Handled && r.after.stack == m.stack
    ensures leaves ==> r.after.stack == m.stack[..|m.stack| - 1]
    ensures r.outcome == Handled <==> !leaves || |m.stack| >= 2
    ensures m.effects <= r.after.effects
  {
    var m1 := Emit(m, [Deactivated(GoBackTarget(Top(m)))]);
    if leaves then PopSpec(m1) else Step(m1, Handled)
  }

  // Input

  /** The test at the head of `MenuLogic`: raw input and raw backspace pass
      whatever their `Pressed`; every other control only when pressed. A null
      `Pressed` on another control makes the test throw (None). */
  function MenuGuard(msg: InputMessage): (r: Option<bool>)
    ensures r.None? <==> msg.control != RawInput && msg.control != RawBack && msg.pressed.None?
    ensures r == Some(true) <==> msg.control == RawInput || msg.control == RawBack || msg.pressed == Some(true)
  {
    if msg.control == RawInput || msg.control == RawBack then Some(true)
    else if msg.pressed.None? then None
    else Some(msg.pressed.value)
  }

  /** What the selected item hears from left, right, raw input and raw
      backspace: only items of the matching interface, and raw input only
      with a character. */
  function ItemEffects(selected: Option<Item>, msg: InputMessage): (r: seq<Effect>)
    ensures |r| <= 1
    ensures r != [] <==>
      (selected.Some? &&
       ((msg.control in {ControlsLeft, ControlsRight} && selected.value.chooseable)
        || (msg.control == RawInput && msg.key.Some? && selected.value.rawConsumer)
        || (msg.control == RawBack && selected.value.rawConsumer)))
  {
    if selected.None? then []
    else
      var item := selected.value;
      match msg.control
      case ControlsLeft => if item.chooseable then [ChosePrevious(item.id)] else []
      case ControlsRight => if item.chooseable then [ChoseNext(item.id)] else []
      case RawInput => if msg.key.Some? && item.rawConsumer then [HandledRawKey(item.id, msg.key.value)] else []
      case RawBack => if item.rawConsumer then [HandledBackspace(item.id)] else []
      case _ => []
  }

  /** A pressed back in the menu: at the main menu the game is asked to
      exit; deeper, raw input is switched off if it was on, or else the
      current menu is left. The menu then on top is announced. */
  function MenuBackSpec(m: Machine, leaves: bool): (r: Step)
    requires |m.stack| >= 1
    reads m.stack
    ensures r.outcome == Handled ==> |r.after.stack| >= 1
    ensures m.effects <= r.after.effects
  {
    if |m.stack| == 1 then Step(Emit(m, [Exited, Raised(Menu(Top(m).id))]), Handled)
    else if m.rawInput then Step(Emit(m.(rawInput := false), [Raised(Menu(Top(m).id))]), Handled)
    else GoBackAndAnnounce(m, leaves)
  }

  /** `MenuGoBack` below the main menu, then the menu on top announced. */
  function GoBackAndAnnounce(m: Machine, leaves: bool): (r: Step)
    requires |m.stack| >= 2
    reads m.stack
    ensures r.outcome == Handled && |r.after.stack| >= 1
    ensures m.effects <= r.after.effects
  {
    var g := GoBackSpec(m, leaves);
    Step(Emit(g.after, [Raised(Menu(Top(g.after).id))]), Handled)
  }

  /** `MenuLogic`. */
  function MenuSpec(m: Machine, msg: InputMessage, leaves: bool): (r: Step)
    reads m.stack
    ensures r.outcome == Handled ==> |r.after.stack| >= 1
    ensures m.effects <= r.after.effects
  {
    if |m.stack| == 0 then Step(m, EmptyMenuStack)
    else
    var top := Top(m);
    var guard := MenuGuard(msg);
    if guard.None? then Step(m, NullPressed)
    else if !guard.value then Step(m, Handled)
    else match msg.control
      case ControlsAction =>
        if top.selectedItem.Some? then SelectSpec(m, top.selectedItem.value) else Step(m, Handled)
      case ControlsBack => MenuBackSpec(m, leaves)
      case ControlsUp =>
        if top.selectedItem.Some? then Step(Emit(m, [SelectedPrevious(top.id), Raised(Menu(top.id))]), Handled)
        else Step(m, Handled)
      case ControlsDown =>
        if top.selectedItem.Some? then Step(Emit(m, [SelectedNext(top.id), Raised(Menu(top.id))]), Handled)
        else Step(m, Handled)
      case ControlsLeft => Step(Emit(m, ItemEffects(top.selectedItem, msg)), Handled)
      case ControlsRight => Step(Emit(m, ItemEffects(top.selectedItem, msg)), Handled)
      case RawInput => Step(Emit(m, ItemEffects(top.selectedItem, msg)), Handled)
      case RawBack => Step(Emit(m, ItemEffects(top.selectedItem, msg)), Handled)
      case _ => Step(m, Handled)
  }

  /** `GameLogic`: a pressed back returns to the menu and says so. */
  function GameSpec(m: Machine, msg: InputMessage): (r: Step)
    ensures m.effects <= r.after.effects
  {
    if msg.pressed.None? then Step(m, NullPressed)
    else if msg.pressed.value && msg.control == ControlsBack then
      Step(Emit(m.(state := MenuState), [Raised(Logic(GameMessage))]), Handled)
    else Step(m, Handled)
  }

  /** `HandleInputMessage`: other kinds of message are ignored; a pressed
      console control raises a performance message first; then the state
      picks the menu or the game. */
  function HandleSpec(m: Machine, message: Message, leaves: bool): (r: Step)
    reads m.stack
    ensures r.outcome == Handled && |m.stack| >= 1 ==> |r.after.stack| >= 1
    ensures r.outcome == NullPressed ==> r.after == m
    ensures m.effects <= r.after.effects
  {
    if !message.Input? then Step(m, Handled)
    else
      var msg := message.input;
      if msg.control == ControlsConsole && msg.pressed.None? then Step(m, NullPressed)
      else
        var m1 := if msg.control == ControlsConsole && msg.pressed.value then Emit(m, [Raised(Logic(PerformanceMessage))]) else m;
        match m.state
        case MenuState => MenuSpec(m1, msg, leaves)
        case SimulationState => GameSpec(m1, msg)
  }

  function ContinueSpec(m: Machine): (r: Machine)
  {
    Emit(m.(state := SimulationState), [Raised(Logic(GameMessage))])
  }

  /** `StartGame`: leave the menu the user is in, select the first entry of
      the menu then on top, dispose the running match, start the new one and
      enter the game. Building the session is the game mode's business. */
  function StartSpec(m: Machine, leaves: bool): (r: Step)
    reads m.stack
    ensures m.effects <= r.after.effects
  {
    if |m.stack| == 0 then Step(m, EmptyMenuStack)
    else
    var g := GoBackSpec(m, leaves);
    if g.outcome != Handled then g
    else
      var a := g.after;
      var e := [SelectedIndex(Top(a).id, 0)] + (if a.hasMatch then [MatchDisposed] else []) + [MatchStarted, Raised(Logic(GameMessage))];
      Step(Emit(a.(state := SimulationState, hasMatch := true), e), Handled)
  }

  // Properties of the machine

  /** A pressed console control asks for the performance overlay before
      anything else happens, in the menu and in the game alike. */
  lemma ConsoleRaisesPerformanceFirst(m: Machine, msg: InputMessage, leaves: bool)
    requires |m.stack| >= 1
    requires msg.control == ControlsConsole && msg.pressed == Some(true)
    ensures var r := HandleSpec(m, Input(msg), leaves);
      |r.after.effects| > |m.effects| && r.after.effects[|m.effects|] == Raised(Logic(PerformanceMessage))
  {
    var m1 := Emit(m, [Raised(Logic(PerformanceMessage))]);
    var r := HandleSpec(m, Input(msg), leaves);
    assert m1.effects <= r.after.effects;
    assert m1.effects[|m.effects|] == Raised(Logic(PerformanceMessage));
  }

  /** In the game, a pressed back returns to the menu and raises exactly one
      game message; nothing else changes. */
  lemma BackLeavesGame(m: Machine, msg: InputMessage, leaves: bool)
    requires |m.stack| >= 1 && m.state == SimulationState
    requires msg.control == ControlsBack && msg.pressed == Some(true)
    ensures HandleSpec(m, Input(msg), leaves)
      == Step(m.(state := MenuState, effects := m.effects + [Raised(Logic(GameMessage))]), Handled)
  {
  }

  /** In the game, every other message with a `Pressed` value changes
      nothing, apart from the performance message of a pressed console. */
  lemma GameIgnoresOtherInput(m: Machine, msg: InputMessage, leaves: bool)
    requires |m.stack| >= 1 && m.state == SimulationState
    requires msg.pressed.Some? && !(msg.control == ControlsBack && msg.pressed.value)
    ensures var r := HandleSpec(m, Input(msg), leaves);
      && r.outcome == Handled
      && r.after.(effects := m.effects) == m
      && r.after.effects == m.effects + (if msg.control == ControlsConsole && msg.pressed.value then [Raised(Logic(PerformanceMessage))] else [])
  {
  }

  /** A null `Pressed` is an error in the game, whatever the control, and in
      the menu unless the control is raw input or raw backspace; the error
      leaves everything as it was. */
  lemma NullPressedFails(m: Machine, msg: InputMessage, leaves: bool)
    requires |m.stack| >= 1 && msg.pressed.None?
    ensures var r := HandleSpec(m, Input(msg), leaves);
      (r.outcome == NullPressed <==> m.state == SimulationState || (msg.control != RawInput && msg.control != RawBack))
      && (r.outcome == NullPressed ==> r.after == m)
  {
  }

  /** Once a pop has emptied the menu stack, every input in the menu state
      fails at `Peek`; only the console's performance message gets out first. */
  lemma EmptyStackFailsInMenu(m: Machine, msg: InputMessage, leaves: bool)
    requires m.stack == [] && m.state == MenuState
    requires !(msg.control == ControlsConsole && msg.pressed.None?)
    ensures var r := HandleSpec(m, Input(msg), leaves);
      r.outcome == EmptyMenuStack && r.after.(effects := m.effects) == m
  {
  }

  /** In the menu, a released control other than raw input, raw backspace
      and the console is ignored. */
  lemma ReleasedIgnoredInMenu(m: Machine, msg: InputMessage, leaves: bool)
    requires |m.stack| >= 1 && m.state == MenuState
    requires msg.pressed == Some(false) && msg.control !in {RawInput, RawBack}
    ensures HandleSpec(m, Input(msg), leaves) == Step(m, Handled)
  {
  }

  /** In the menu, up and down move the selection of the top menu and
      announce that menu, but only when it has a selected item. */
  lemma UpDownInMenu(m: Machine, msg: InputMessage, leaves: bool)
    requires |m.stack| >= 1 && m.state == MenuState
    requires msg.control in {ControlsUp, ControlsDown} && msg.pressed == Some(true)
    ensures var r := HandleSpec(m, Input(msg), leaves);
      var top := Top(m);
      var move := if msg.control == ControlsUp then SelectedPrevious(top.id) else SelectedNext(top.id);
      && r.outcome == Handled
      && r.after == (if top.selectedItem.Some? then Emit(m, [move, Raised(Menu(top.id))]) else m)
  {
  }

  /** In the menu, a pressed back: at the main menu the game is asked to
      exit and the stack stays; deeper with raw input on, only raw input is
      switched off; deeper otherwise, the current menu is left through
      `MenuGoBack`. Whenever handling completes, the last effect announces
      the menu then on top. */
  lemma BackInMenu(m: Machine, msg: InputMessage, leaves: bool)
    requires |m.stack| >= 1 && m.state == MenuState
    requires msg.control == ControlsBack && msg.pressed == Some(true)
    ensures var r := HandleSpec(m, Input(msg), leaves);
      && r.outcome == Handled
      && r.after.effects[|r.after.effects| - 1] == Raised(Menu(Top(r.after).id))
      && (|m.stack| == 1 ==> r.after == Emit(m, [Exited, Raised(Menu(Top(m).id))]))
      && (|m.stack| >= 2 && m.rawInput ==> r.after == Emit(m.(rawInput := false), [Raised(Menu(Top(m).id))]))
      && (|m.stack| >= 2 && !m.rawInput ==>
            && r.after.rawInput == m.rawInput
            && r.after.stack == (if leaves then m.stack[..|m.stack| - 1] else m.stack)
            && r.after.effects[|m.effects|] == Deactivated(GoBackTarget(Top(m))))
  {
    var r := HandleSpec(m, Input(msg), leaves);
    if |m.stack| >= 2 && !m.rawInput {
      var g := GoBackSpec(m, leaves);
      assert r.after == Emit(g.after, [Raised(Menu(Top(g.after).id))]);
      assert g.after.effects <= r.after.effects;
    }
  }

  /** How often `e` occurs in `s`. */
  function Count(s: seq<Effect>, e: Effect): (n: nat)
    ensures n <= |s|
  {
    if s == [] then 0 else Count(s[..|s| - 1], e) + (if s[|s| - 1] == e then 1 else 0)
  }

  lemma {:induction false} CountAppend(a: seq<Effect>, b: seq<Effect>, e: Effect)
    ensures Count(a + b, e) == Count(a, e) + Count(b, e)
  {
    if b == [] {
      assert a + b == a;
    } else {
      assert (a + b)[..|a + b| - 1] == a + b[..|b| - 1];
      CountAppend(a, b[..|b| - 1], e);
    }
  }

  /** `StartGame`, when it gets past leaving the menu, enters the game with a
      match, disposes the old match exactly when there was one, and raises
      exactly one game message, as its last effect. */
  lemma StartEntersGame(m: Machine, leaves: bool)
    requires |m.stack| >= 1
    requires !leaves || |m.stack| >= 2
    ensures var r := StartSpec(m, leaves);
      && r.outcome == Handled && r.after.state == SimulationState && r.after.hasMatch
      && |r.after.stack| >= 1
      && r.after.effects[|r.after.effects| - 1] == Raised(Logic(GameMessage))
      && (MatchDisposed in r.after.effects[|m.effects|..] <==> m.hasMatch)
  {
    var a := GoBackSpec(m, leaves).after;
    var disposal := if a.hasMatch then [MatchDisposed] else [];
    var e := [SelectedIndex(Top(a).id, 0)] + disposal + [MatchStarted, Raised(Logic(GameMessage))];
    StartAdds(m, leaves);
    LeavingIsQuiet(m, leaves);
    assert MatchDisposed in e <==> a.hasMatch;
  }

  /** ... and its effects hold exactly one game message. */
  lemma StartRaisesOneGameMessage(m: Machine, leaves: bool)
    requires |m.stack| >= 1
    requires !leaves || |m.stack| >= 2
    ensures var r := StartSpec(m, leaves);
      Count(r.after.effects[|m.effects|..], Raised(Logic(GameMessage))) == 1
  {
    var a := GoBackSpec(m, leaves).after;
    var gone := a.effects[|m.effects|..];
    var disposal := if a.hasMatch then [MatchDisposed] else [];
    var e := [SelectedIndex(Top(a).id, 0)] + disposal + [MatchStarted, Raised(Logic(GameMessage))];
    StartAdds(m, leaves);
    LeavingIsQuiet(m, leaves);
    CountAppend(gone, e, Raised(Logic(GameMessage)));
    StartTailCount(SelectedIndex(Top(a).id, 0), disposal);
  }

  lemma StartTailCount(select: Effect, disposal: seq<Effect>)
    requires select.SelectedIndex? && (disposal == [] || disposal == [MatchDisposed])
    ensures Count([select] + disposal + [MatchStarted, Raised(Logic(GameMessage))], Raised(Logic(GameMessage))) == 1
  {
    var g := Raised(Logic(GameMessage));
    CountAppend([select] + disposal, [MatchStarted, g], g);
    CountAppend([select], disposal, g);
    assert Count([MatchStarted, g], g) == 1 by {
      assert [MatchStarted, g][..1] == [MatchStarted];
      assert [MatchStarted][..0] == [];
    }
    assert Count([select], g) == 0 by {
      assert [select][..0] == [];
    }
    assert Count(disposal, g) == 0 by {
      if disposal != [] {
        assert disposal[..0] == [];
      }
    }
  }

  /** The effects `StartGame` adds: those of leaving the menu, then its own. */
  lemma StartAdds(m: Machine, leaves: bool)
    requires |m.stack| >= 1
    requires !leaves || |m.stack| >= 2
    ensures var a := GoBackSpec(m, leaves).after;
      var r := StartSpec(m, leaves);
      var disposal := if a.hasMatch then [MatchDisposed] else [];
      && |a.stack| >= 1 && a.hasMatch == m.hasMatch
      && r.after.effects[|m.effects|..] == a.effects[|m.effects|..]
           + ([SelectedIndex(Top(a).id, 0)] + disposal + [MatchStarted, Raised(Logic(GameMessage))])
  {
    var a := GoBackSpec(m, leaves).after;
    var r := StartSpec(m, leaves);
    var disposal := if a.hasMatch then [MatchDisposed] else [];
    var e := [SelectedIndex(Top(a).id, 0)] + disposal + [MatchStarted, Raised(Logic(GameMessage))];
    assert r.after.effects == a.effects + e;
    assert a.effects == m.effects + a.effects[|m.effects|..];
  }

  /** Leaving the menu raises no game message and disposes nothing. */
  lemma LeavingIsQuiet(m: Machine, leaves: bool)
    requires |m.stack| >= 1
    ensures var g := GoBackSpec(m, leaves);
      var gone := g.after.effects[|m.effects|..];
      Count(gone, Raised(Logic(GameMessage))) == 0 && MatchDisposed !in gone
  {
    var g := GoBackSpec(m, leaves);
    var gone := g.after.effects[|m.effects|..];
    var d := Deactivated(GoBackTarget(Top(m)));
    if g.after.effects == m.effects + [d] {
      assert gone == [d];
      assert gone[..0] == [];
    } else {
      var t := Raised(Menu(Top(g.after).id));
      assert g.after.effects == m.effects + [d] + [t];
      assert gone == [d, t];
      assert gone[..1] == [d] && [d][..0] == [];
    }
  }

  /** `ContinueGame` enters the game and raises exactly one game message. */
  lemma ContinueEntersGame(m: Machine)
    ensures var r := ContinueSpec(m);
      && r.state == SimulationState && r.stack == m.stack && r.rawInput == m.rawInput && r.hasMatch == m.hasMatch
      && r.effects[..|m.effects|] == m.effects
      && Count(r.effects[|m.effects|..], Raised(Logic(GameMessage))) == 1
  {
    var r := ContinueSpec(m);
    assert r.effects[|m.effects|..] == [Raised(Logic(GameMessage))];
    assert [Raised(Logic(GameMessage))][..0] == [];
  }

  /** `LogicControl`: the menu stack, the game state, the raw-input flag;
      `hasMatch` stands for `Game.Match != null` and `effects` for the
      events raised and the calls made into the menu library and the match.
      Every method is proved to do what the function of the same name above
      says of the whole state. */
  class LogicControl {
    var activeMenu: seq<Composite>
    var state: GameState
    var rawInput: bool
    var hasMatch: bool
    var effects: seq<Effect>

    function Snapshot(): Machine
      reads this
    {
      Machine(activeMenu, state, rawInput, hasMatch, effects)
    }

    /** The main menu alone on the stack, in the menu state. */
    constructor (mainMenu: Composite, hasMatch: bool)
      ensures Snapshot() == Machine([mainMenu], MenuState, false, hasMatch, [])
    {
      activeMenu := [mainMenu];
      state := MenuState;
      rawInput := false;
      this.hasMatch := hasMatch;
      effects := [];
    }

    method RaiseMessageEvent(msg: Message)
      modifies this
      ensures Snapshot() == Emit(old(Snapshot()), [Raised(msg)])
    {
      effects := effects + [Raised(msg)];
    }

    /** `activeMenu.Pop()` followed by announcing `activeMenu.Peek()`. */
    method PopAndAnnounce() returns (outcome: Outcome)
      requires |activeMenu| >= 1
      modifies this
      ensures Step(Snapshot(), outcome) == old(PopSpec(Snapshot()))
    {
      activeMenu := activeMenu[..|activeMenu| - 1];
      if activeMenu == [] {
        return EmptyMenuStack;
      }
      RaiseMessageEvent(Menu(activeMenu[|activeMenu| - 1].id));
      outcome := Handled;
    }

    /** The select handler bound for `Composite`. */
    method OnSelectComposite(c: Composite)
      modifies this
      ensures Snapshot() == old(Emit(Snapshot().(stack := activeMenu + [c]), [Raised(Menu(c.id))]))
    {
      activeMenu := activeMenu + [c];
      RaiseMessageEvent(Menu(activeMenu[|activeMenu| - 1].id));
    }

    /** The select handler bound for `InputBox`. */
    method OnSelectInputBox(ib: ItemRef)
      modifies this
      ensures Snapshot() == old(Emit(Snapshot().(rawInput := true), [Raised(Menu(ib))]))
    {
      rawInput := true;
      RaiseMessageEvent(Menu(ib));
    }

    /** The unselect handler bound for every item; `leaves` is its test. */
    method OnUnselect(leaves: bool) returns (outcome: Outcome)
      requires |activeMenu| >= 1
      modifies this
      ensures leaves ==> Step(Snapshot(), outcome) == old(PopSpec(Snapshot()))
      ensures !leaves ==> outcome == Handled && Snapshot() == old(Snapshot())
    {
      outcome := Handled;
      if leaves {
        outcome := PopAndAnnounce();
      }
    }

    /** `item.Activate()`, with the select handler it reaches. */
    method Activate(item: Item) returns (outcome: Outcome)
      requires |activeMenu| >= 1
      modifies this
      ensures Step(Snapshot(), outcome) == old(SelectSpec(Snapshot(), item))
    {
      effects := effects + [Activated(item.id)];
      match item.kind
      case SubMenu(c) =>
        OnSelectComposite(c);
        outcome := Handled;
      case BackItem =>
        outcome := PopAndAnnounce();
      case InputBoxItem =>
        OnSelectInputBox(item.id);
        outcome := Handled;
      case OtherItem =>
        outcome := Handled;
    }

    method MenuGoBack(leaves: bool) returns (outcome: Outcome)
      requires |activeMenu| >= 1
      modifies this
      ensures Step(Snapshot(), outcome) == old(GoBackSpec(Snapshot(), leaves))
    {
      var top := activeMenu[|activeMenu| - 1];
      if top.selectedItem.Some? {
        effects := effects + [Deactivated(top.selectedItem.value.id)];
      } else {
        effects := effects + [Deactivated(top.id)];
      }
      outcome := OnUnselect(leaves);
    }

    method StartGame(leaves: bool) returns (outcome: Outcome)
      modifies this
      ensures Step(Snapshot(), outcome) == old(StartSpec(Snapshot(), leaves))
    {
      if activeMenu == [] {
        return EmptyMenuStack;
      }
      outcome := MenuGoBack(leaves);
      if outcome != Handled {
        return;
      }
      BeginMatch();
    }

    /** The part of `StartGame` after `MenuGoBack`. */
    method BeginMatch()
      requires |activeMenu| >= 1
      modifies this
      ensures var m := old(Snapshot());
        Snapshot() == Emit(m.(state := SimulationState, hasMatch := true),
          [SelectedIndex(Top(m).id, 0)] + (if m.hasMatch then [MatchDisposed] else []) + [MatchStarted, Raised(Logic(GameMessage))])
    {
      effects := effects + [SelectedIndex(activeMenu[|activeMenu| - 1].id, 0)];
      state := SimulationState;
      if hasMatch {
        effects := effects + [MatchDisposed];
      }
      hasMatch := true;
      effects := effects + [MatchStarted];
      RaiseMessageEvent(Logic(GameMessage));
    }

    method ContinueGame()
      modifies this
      ensures Snapshot() == old(ContinueSpec(Snapshot()))
    {
      state := SimulationState;
      RaiseMessageEvent(Logic(GameMessage));
    }

    method GameLogic(msg: InputMessage) returns (outcome: Outcome)
      modifies this
      ensures Step(Snapshot(), outcome) == old(GameSpec(Snapshot(), msg))
    {
      if msg.pressed.None? {
        return NullPressed;
      }
      outcome := Handled;
      if msg.pressed.value && msg.control == ControlsBack {
        state := MenuState;
        RaiseMessageEvent(Logic(GameMessage));
      }
    }

    /** The `ControlsBack` case of `MenuLogic`. */
    method MenuBack(leaves: bool) returns (outcome: Outcome)
      requires |activeMenu| >= 1
      modifies this
      ensures Step(Snapshot(), outcome) == old(MenuBackSpec(Snapshot(), leaves))
    {
      if |activeMenu| == 1 {
        effects := effects + [Exited];
      } else if rawInput {
        rawInput := false;
      } else {
        outcome := MenuGoBack(leaves);
      }
      RaiseMessageEvent(Menu(activeMenu[|activeMenu| - 1].id));
      outcome := Handled;
    }

    method MenuLogic(msg: InputMessage, leaves: bool) returns (outcome: Outcome)
      modifies this
      ensures Step(Snapshot(), outcome) == old(MenuSpec(Snapshot(), msg, leaves))
    {
      if activeMenu == [] {
        return EmptyMenuStack;
      }
      var top := activeMenu[|activeMenu| - 1];
      var guard := MenuGuard(msg);
      if guard.None? {
        return NullPressed;
      }
      outcome := Handled;
      if !guard.value {
        return;
      }
      match msg.control
      case ControlsAction =>
        if top.selectedItem.Some? {
          outcome := Activate(top.selectedItem.value);
        }
      case ControlsBack =>
        outcome := MenuBack(leaves);
      case ControlsUp =>
        if top.selectedItem.Some? {
          effects := effects + [SelectedPrevious(top.id)];
          RaiseMessageEvent(Menu(top.id));
        }
      case ControlsDown =>
        if top.selectedItem.Some? {
          effects := effects + [SelectedNext(top.id)];
          RaiseMessageEvent(Menu(top.id));
        }
      case ControlsLeft =>
        effects := effects + ItemEffects(top.selectedItem, msg);
      case ControlsRight =>
        effects := effects + ItemEffects(top.selectedItem, msg);
      case RawInput =>
        effects := effects + ItemEffects(top.selectedItem, msg);
      case RawBack =>
        effects := effects + ItemEffects(top.selectedItem, msg);
      case _ =>
    }

    method HandleInputMessage(message: Message, leaves: bool) returns (outcome: Outcome)
      modifies this
      ensures Step(Snapshot(), outcome) == old(HandleSpec(Snapshot(), message, leaves))
    {
      if !message.Input? {
        return Handled;
      }
      var msg := message.input;
      if msg.control == ControlsConsole {
        if msg.pressed.None? {
          return NullPressed;
        }
        if msg.pressed.value {
          RaiseMessageEvent(Logic(PerformanceMessage));
        }
      }
      match state
      case MenuState =>
        outcome := MenuLogic(msg, leaves);
      case SimulationState =>
        outcome := GameLogic(msg);
    }
  }
}
