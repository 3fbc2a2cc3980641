/** What the gamepad half of the input translator promises: which button
    transitions raise which messages, and in what order. The facts are
    first proved for the messages between two sets of held inputs
    (`ButtonMessages`) and then read off for pad states (`PadMessages`). */
module PadProperties {
  import opened Geometry
  import opened Messages
  import opened Input

  /** When no other edge for the same control rises, the press message for
      that control is raised exactly when edge i rises. */
  lemma {:induction false} PressDecidedBy(edges: seq<Edge>, player: PlayerRef, i: nat)
    requires SoleRiser(edges, i)
    ensures InputMessage(edges[i].control, Some(true), None, player) in Presses(edges, player) <==> Rising(edges[i])
  {
    PressesMembers(edges, player);
    if InputMessage(edges[i].control, Some(true), None, player) in Presses(edges, player) {
      var e :| e in edges && Rising(e) && e.control == edges[i].control;
      var j :| 0 <= j < |edges| && edges[j] == e;
    }
    assert edges[i] in edges;
  }

  /** The release counterpart of `PressDecidedBy`. */
  lemma {:induction false} ReleaseDecidedBy(edges: seq<Edge>, player: PlayerRef, i: nat)
    requires SoleFaller(edges, i)
    ensures InputMessage(edges[i].control, Some(false), None, player) in Releases(edges, player) <==> Falling(edges[i])
  {
    ReleasesMembers(edges, player);
    if InputMessage(edges[i].control, Some(false), None, player) in Releases(edges, player) {
      var e :| e in edges && Falling(e) && e.control == edges[i].control;
      var j :| 0 <= j < |edges| && edges[j] == e;
    }
    assert edges[i] in edges;
  }

  /** Edge i is the only edge for its control that can rise. */
  predicate SoleRiser(edges: seq<Edge>, i: nat)
  {
    i < |edges| && forall j :: 0 <= j < |edges| && j != i && edges[j].control == edges[i].control ==> !Rising(edges[j])
  }

  /** Edge i is the only edge for its control that can fall. */
  predicate SoleFaller(edges: seq<Edge>, i: nat)
  {
    i < |edges| && forall j :: 0 <= j < |edges| && j != i && edges[j].control == edges[i].control ==> !Falling(edges[j])
  }

  /** An input b, tested at press position i and release position k, where
      no other input for its control moves the same way, alone decides that
      control's press and release messages. */
  lemma ButtonDecides(prev: Buttons, cur: Buttons, player: PlayerRef, b: Edge, i: nat, k: nat)
    requires SoleRiser(PressEdges(prev, cur), i) && PressEdges(prev, cur)[i] == b
    requires SoleFaller(ReleaseEdges(prev, cur), k) && ReleaseEdges(prev, cur)[k] == b
    ensures InputMessage(b.control, Some(true), None, player) in ButtonMessages(prev, cur, player) <==> Rising(b)
    ensures InputMessage(b.control, Some(false), None, player) in ButtonMessages(prev, cur, player) <==> Falling(b)
  {
    PressesMembers(PressEdges(prev, cur), player);
    ReleasesMembers(ReleaseEdges(prev, cur), player);
    PressDecidedBy(PressEdges(prev, cur), player, i);
    ReleaseDecidedBy(ReleaseEdges(prev, cur), player, k);
  }

  /** Where B sits in the press and release tables, and that nothing
      else there moves ControlsBack the same way. */
  lemma BackEdges(b0: Buttons, b1: Buttons)
    ensures SoleRiser(PressEdges(b0, b1), 4) && PressEdges(b0, b1)[4] == Edge(b0.b, b1.b, ControlsBack)
    ensures SoleFaller(ReleaseEdges(b0, b1), 9) && ReleaseEdges(b0, b1)[9] == Edge(b0.b, b1.b, ControlsBack)
  {
    var pe, re := PressEdges(b0, b1), ReleaseEdges(b0, b1);
    forall j | 0 <= j < |pe| && pe[j].control == pe[4].control
      ensures j == 4
    {
    }
    forall j | 0 <= j < |re| && re[j].control == re[9].control
      ensures j == 9
    {
    }
  }

  lemma ButtonsBack(b0: Buttons, b1: Buttons, player: PlayerRef)
    ensures var ms := ButtonMessages(b0, b1, player);
            && (InputMessage(ControlsBack, Some(true), None, player) in ms <==> !b0.b && b1.b)
            && (InputMessage(ControlsBack, Some(false), None, player) in ms <==> b0.b && !b1.b)
  {
    BackEdges(b0, b1);
    ButtonDecides(b0, b1, player, Edge(b0.b, b1.b, ControlsBack), 4, 9);
  }

  /** B is the only source of `ControlsBack`: a press message exactly on a
      released-to-pressed transition, a release message exactly on the reverse. */
  lemma PadBack(prev: PadState, cur: PadState, flipY: bool, player: PlayerRef)
    requires cur.isConnected
    ensures var ms := PadMessages(prev, cur, flipY, player);
            && (InputMessage(ControlsBack, Some(true), None, player) in ms <==> !prev.buttonB && cur.buttonB)
            && (InputMessage(ControlsBack, Some(false), None, player) in ms <==> prev.buttonB && !cur.buttonB)
  {
    ButtonsBack(Held(prev, flipY), Held(cur, flipY), player);
  }

  /** Where A sits in the press and release tables, and that nothing
      else there moves ControlsAction the same way. */
  lemma ActionEdges(b0: Buttons, b1: Buttons)
    ensures SoleRiser(PressEdges(b0, b1), 5) && PressEdges(b0, b1)[5] == Edge(b0.a, b1.a, ControlsAction)
    ensures SoleFaller(ReleaseEdges(b0, b1), 10) && ReleaseEdges(b0, b1)[10] == Edge(b0.a, b1.a, ControlsAction)
  {
    var pe, re := PressEdges(b0, b1), ReleaseEdges(b0, b1);
    forall j | 0 <= j < |pe| && pe[j].control == pe[5].control
      ensures j == 5
    {
    }
    forall j | 0 <= j < |re| && re[j].control == re[10].control
      ensures j == 10
    {
    }
  }

  lemma ButtonsAction(b0: Buttons, b1: Buttons, player: PlayerRef)
    ensures var ms := ButtonMessages(b0, b1, player);
            && (InputMessage(ControlsAction, Some(true), None, player) in ms <==> !b0.a && b1.a)
            && (InputMessage(ControlsAction, Some(false), None, player) in ms <==> b0.a && !b1.a)
  {
    ActionEdges(b0, b1);
    ButtonDecides(b0, b1, player, Edge(b0.a, b1.a, ControlsAction), 5, 10);
  }

  /** A is the only source of `ControlsAction`, in the same way. */
  lemma PadAction(prev: PadState, cur: PadState, flipY: bool, player: PlayerRef)
    requires cur.isConnected
    ensures var ms := PadMessages(prev, cur, flipY, player);
            && (InputMessage(ControlsAction, Some(true), None, player) in ms <==> !prev.buttonA && cur.buttonA)
            && (InputMessage(ControlsAction, Some(false), None, player) in ms <==> prev.buttonA && !cur.buttonA)
  {
    ButtonsAction(Held(prev, flipY), Held(cur, flipY), player);
  }

  /** No stick direction and not the stick button held in either state. */
  predicate StickStill(b0: Buttons, b1: Buttons)
  {
    && !b0.stickRight && !b0.stickLeft && !b0.stickDown && !b0.stickUp && !b0.stickButton
    && !b1.stickRight && !b1.stickLeft && !b1.stickDown && !b1.stickUp && !b1.stickButton
  }

  /** The stick and its button at rest in both pad states. */
  predicate StickAtRest(prev: PadState, cur: PadState, flipY: bool)
  {
    StickStill(Held(prev, flipY), Held(cur, flipY))
  }

  /** Where D-pad up sits in the press and release tables, and that nothing
      else there moves ControlsUp the same way. */
  lemma UpEdges(b0: Buttons, b1: Buttons)
    requires StickStill(b0, b1)
    ensures SoleRiser(PressEdges(b0, b1), 0) && PressEdges(b0, b1)[0] == Edge(b0.dpadUp, b1.dpadUp, ControlsUp)
    ensures SoleFaller(ReleaseEdges(b0, b1), 5) && ReleaseEdges(b0, b1)[5] == Edge(b0.dpadUp, b1.dpadUp, ControlsUp)
  {
    var pe, re := PressEdges(b0, b1), ReleaseEdges(b0, b1);
    forall j | 0 <= j < |pe| && j != 0 && pe[j].control == pe[0].control
      ensures !Rising(pe[j])
    {
      assert j == 10;
    }
    forall j | 0 <= j < |re| && j != 5 && re[j].control == re[5].control
      ensures !Falling(re[j])
    {
      assert j == 3;
    }
  }

  lemma ButtonsUpAtRest(b0: Buttons, b1: Buttons, player: PlayerRef)
    requires StickStill(b0, b1)
    ensures var ms := ButtonMessages(b0, b1, player);
            && (InputMessage(ControlsUp, Some(true), None, player) in ms <==> !b0.dpadUp && b1.dpadUp)
            && (InputMessage(ControlsUp, Some(false), None, player) in ms <==> b0.dpadUp && !b1.dpadUp)
  {
    UpEdges(b0, b1);
    ButtonDecides(b0, b1, player, Edge(b0.dpadUp, b1.dpadUp, ControlsUp), 0, 5);
  }

  /** With the stick at rest, the D-pad alone decides the up messages. */
  lemma PadUpAtRest(prev: PadState, cur: PadState, flipY: bool, player: PlayerRef)
    requires cur.isConnected && StickAtRest(prev, cur, flipY)
    ensures var ms := PadMessages(prev, cur, flipY, player);
            && (InputMessage(ControlsUp, Some(true), None, player) in ms <==> !prev.dpadUp && cur.dpadUp)
            && (InputMessage(ControlsUp, Some(false), None, player) in ms <==> prev.dpadUp && !cur.dpadUp)
  {
    ButtonsUpAtRest(Held(prev, flipY), Held(cur, flipY), player);
  }

  /** Where D-pad down sits in the press and release tables, and that nothing
      else there moves ControlsDown the same way. */
  lemma DownEdges(b0: Buttons, b1: Buttons)
    requires StickStill(b0, b1)
    ensures SoleRiser(PressEdges(b0, b1), 1) && PressEdges(b0, b1)[1] == Edge(b0.dpadDown, b1.dpadDown, ControlsDown)
    ensures SoleFaller(ReleaseEdges(b0, b1), 6) && ReleaseEdges(b0, b1)[6] == Edge(b0.dpadDown, b1.dpadDown, ControlsDown)
  {
    var pe, re := PressEdges(b0, b1), ReleaseEdges(b0, b1);
    forall j | 0 <= j < |pe| && j != 1 && pe[j].control == pe[1].control
      ensures !Rising(pe[j])
    {
      assert j == 9;
    }
    forall j | 0 <= j < |re| && j != 6 && re[j].control == re[6].control
      ensures !Falling(re[j])
    {
      assert j == 2;
    }
  }

  lemma ButtonsDownAtRest(b0: Buttons, b1: Buttons, player: PlayerRef)
    requires StickStill(b0, b1)
    ensures var ms := ButtonMessages(b0, b1, player);
            && (InputMessage(ControlsDown, Some(true), None, player) in ms <==> !b0.dpadDown && b1.dpadDown)
            && (InputMessage(ControlsDown, Some(false), None, player) in ms <==> b0.dpadDown && !b1.dpadDown)
  {
    DownEdges(b0, b1);
    ButtonDecides(b0, b1, player, Edge(b0.dpadDown, b1.dpadDown, ControlsDown), 1, 6);
  }

  /** With the stick at rest, the D-pad alone decides the down messages. */
  lemma PadDownAtRest(prev: PadState, cur: PadState, flipY: bool, player: PlayerRef)
    requires cur.isConnected && StickAtRest(prev, cur, flipY)
    ensures var ms := PadMessages(prev, cur, flipY, player);
            && (InputMessage(ControlsDown, Some(true), None, player) in ms <==> !prev.dpadDown && cur.dpadDown)
            && (InputMessage(ControlsDown, Some(false), None, player) in ms <==> prev.dpadDown && !cur.dpadDown)
  {
    ButtonsDownAtRest(Held(prev, flipY), Held(cur, flipY), player);
  }

  /** Where D-pad left sits in the press and release tables, and that nothing
      else there moves ControlsLeft the same way. */
  lemma LeftEdges(b0: Buttons, b1: Buttons)
    requires StickStill(b0, b1)
    ensures SoleRiser(PressEdges(b0, b1), 2) && PressEdges(b0, b1)[2] == Edge(b0.dpadLeft, b1.dpadLeft, ControlsLeft)
    ensures SoleFaller(ReleaseEdges(b0, b1), 7) && ReleaseEdges(b0, b1)[7] == Edge(b0.dpadLeft, b1.dpadLeft, ControlsLeft)
  {
    var pe, re := PressEdges(b0, b1), ReleaseEdges(b0, b1);
    forall j | 0 <= j < |pe| && j != 2 && pe[j].control == pe[2].control
      ensures !Rising(pe[j])
    {
      assert j == 8;
    }
    forall j | 0 <= j < |re| && j != 7 && re[j].control == re[7].control
      ensures !Falling(re[j])
    {
      assert j == 1;
    }
  }

  lemma ButtonsLeftAtRest(b0: Buttons, b1: Buttons, player: PlayerRef)
    requires StickStill(b0, b1)
    ensures var ms := ButtonMessages(b0, b1, player);
            && (InputMessage(ControlsLeft, Some(true), None, player) in ms <==> !b0.dpadLeft && b1.dpadLeft)
            && (InputMessage(ControlsLeft, Some(false), None, player) in ms <==> b0.dpadLeft && !b1.dpadLeft)
  {
    LeftEdges(b0, b1);
    ButtonDecides(b0, b1, player, Edge(b0.dpadLeft, b1.dpadLeft, ControlsLeft), 2, 7);
  }

  /** With the stick at rest, the D-pad alone decides the left messages. */
  lemma PadLeftAtRest(prev: PadState, cur: PadState, flipY: bool, player: PlayerRef)
    requires cur.isConnected && StickAtRest(prev, cur, flipY)
    ensures var ms := PadMessages(prev, cur, flipY, player);
            && (InputMessage(ControlsLeft, Some(true), None, player) in ms <==> !prev.dpadLeft && cur.dpadLeft)
            && (InputMessage(ControlsLeft, Some(false), None, player) in ms <==> prev.dpadLeft && !cur.dpadLeft)
  {
    ButtonsLeftAtRest(Held(prev, flipY), Held(cur, flipY), player);
  }

  /** Where D-pad right sits in the press and release tables, and that nothing
      else there moves ControlsRight the same way. */
  lemma RightEdges(b0: Buttons, b1: Buttons)
    requires StickStill(b0, b1)
    ensures SoleRiser(PressEdges(b0, b1), 3) && PressEdges(b0, b1)[3] == Edge(b0.dpadRight, b1.dpadRight, ControlsRight)
    ensures SoleFaller(ReleaseEdges(b0, b1), 8) && ReleaseEdges(b0, b1)[8] == Edge(b0.dpadRight, b1.dpadRight, ControlsRight)
  {
    var pe, re := PressEdges(b0, b1), ReleaseEdges(b0, b1);
    forall j | 0 <= j < |pe| && j != 3 && pe[j].control == pe[3].control
      ensures !Rising(pe[j])
    {
      assert j == 7;
    }
    forall j | 0 <= j < |re| && j != 8 && re[j].control == re[8].control
      ensures !Falling(re[j])
    {
      assert j == 0;
    }
  }

  lemma ButtonsRightAtRest(b0: Buttons, b1: Buttons, player: PlayerRef)
    requires StickStill(b0, b1)
    ensures var ms := ButtonMessages(b0, b1, player);
            && (InputMessage(ControlsRight, Some(true), None, player) in ms <==> !b0.dpadRight && b1.dpadRight)
            && (InputMessage(ControlsRight, Some(false), None, player) in ms <==> b0.dpadRight && !b1.dpadRight)
  {
    RightEdges(b0, b1);
    ButtonDecides(b0, b1, player, Edge(b0.dpadRight, b1.dpadRight, ControlsRight), 3, 8);
  }

  /** With the stick at rest, the D-pad alone decides the right messages. */
  lemma PadRightAtRest(prev: PadState, cur: PadState, flipY: bool, player: PlayerRef)
    requires cur.isConnected && StickAtRest(prev, cur, flipY)
    ensures var ms := PadMessages(prev, cur, flipY, player);
            && (InputMessage(ControlsRight, Some(true), None, player) in ms <==> !prev.dpadRight && cur.dpadRight)
            && (InputMessage(ControlsRight, Some(false), None, player) in ms <==> prev.dpadRight && !cur.dpadRight)
  {
    ButtonsRightAtRest(Held(prev, flipY), Held(cur, flipY), player);
  }

  /** Where X sits in the press and release tables, and that nothing
      else there moves ControlsJump the same way. */
  lemma JumpEdges(b0: Buttons, b1: Buttons)
    requires !b0.stickButton && !b1.stickButton
    ensures SoleRiser(PressEdges(b0, b1), 6) && PressEdges(b0, b1)[6] == Edge(b0.x, b1.x, ControlsJump)
    ensures SoleFaller(ReleaseEdges(b0, b1), 11) && ReleaseEdges(b0, b1)[11] == Edge(b0.x, b1.x, ControlsJump)
  {
    var pe, re := PressEdges(b0, b1), ReleaseEdges(b0, b1);
    forall j | 0 <= j < |pe| && j != 6 && pe[j].control == pe[6].control
      ensures !Rising(pe[j])
    {
      assert j == 11;
    }
    forall j | 0 <= j < |re| && j != 11 && re[j].control == re[11].control
      ensures !Falling(re[j])
    {
      assert j == 4;
    }
  }

  lemma ButtonsJumpAtRest(b0: Buttons, b1: Buttons, player: PlayerRef)
    requires !b0.stickButton && !b1.stickButton
    ensures var ms := ButtonMessages(b0, b1, player);
            && (InputMessage(ControlsJump, Some(true), None, player) in ms <==> !b0.x && b1.x)
            && (InputMessage(ControlsJump, Some(false), None, player) in ms <==> b0.x && !b1.x)
  {
    JumpEdges(b0, b1);
    ButtonDecides(b0, b1, player, Edge(b0.x, b1.x, ControlsJump), 6, 11);
  }

  /** With the stick button at rest, X alone decides the jump messages. */
  lemma PadJumpAtRest(prev: PadState, cur: PadState, flipY: bool, player: PlayerRef)
    requires cur.isConnected && !prev.leftStickButton && !cur.leftStickButton
    ensures var ms := PadMessages(prev, cur, flipY, player);
            && (InputMessage(ControlsJump, Some(true), None, player) in ms <==> !prev.buttonX && cur.buttonX)
            && (InputMessage(ControlsJump, Some(false), None, player) in ms <==> prev.buttonX && !cur.buttonX)
  {
    ButtonsJumpAtRest(Held(prev, flipY), Held(cur, flipY), player);
  }

  /** A rising edge always yields its press message, a falling one its release. */
  lemma {:induction false} EdgeMessages(edges: seq<Edge>, player: PlayerRef, i: nat)
    requires i < |edges|
    ensures Rising(edges[i]) ==> InputMessage(edges[i].control, Some(true), None, player) in Presses(edges, player)
    ensures Falling(edges[i]) ==> InputMessage(edges[i].control, Some(false), None, player) in Releases(edges, player)
  {
    if i > 0 {
      EdgeMessages(edges[1..], player, i - 1);
    }
  }

  /** A stick direction's virtual button raises its press when it becomes
      held and its release when it stops being held, whatever the D-pad does. */
  lemma ButtonsStickX(b0: Buttons, b1: Buttons, player: PlayerRef)
    ensures var ms := ButtonMessages(b0, b1, player);
      && (!b0.stickRight && b1.stickRight ==> InputMessage(ControlsRight, Some(true), None, player) in ms)
      && (b0.stickRight && !b1.stickRight ==> InputMessage(ControlsRight, Some(false), None, player) in ms)
      && (!b0.stickLeft && b1.stickLeft ==> InputMessage(ControlsLeft, Some(true), None, player) in ms)
      && (b0.stickLeft && !b1.stickLeft ==> InputMessage(ControlsLeft, Some(false), None, player) in ms)
  {
    var pe, re := PressEdges(b0, b1), ReleaseEdges(b0, b1);
    EdgeMessages(pe, player, 7);
    EdgeMessages(pe, player, 8);
    EdgeMessages(re, player, 0);
    EdgeMessages(re, player, 1);
  }

  lemma ButtonsStickY(b0: Buttons, b1: Buttons, player: PlayerRef)
    ensures var ms := ButtonMessages(b0, b1, player);
      && (!b0.stickDown && b1.stickDown ==> InputMessage(ControlsDown, Some(true), None, player) in ms)
      && (b0.stickDown && !b1.stickDown ==> InputMessage(ControlsDown, Some(false), None, player) in ms)
      && (!b0.stickUp && b1.stickUp ==> InputMessage(ControlsUp, Some(true), None, player) in ms)
      && (b0.stickUp && !b1.stickUp ==> InputMessage(ControlsUp, Some(false), None, player) in ms)
  {
    var pe, re := PressEdges(b0, b1), ReleaseEdges(b0, b1);
    EdgeMessages(pe, player, 9);
    EdgeMessages(pe, player, 10);
    EdgeMessages(re, player, 2);
    EdgeMessages(re, player, 3);
  }

  /** The stick crossing 0.5 or -0.5 on X raises the direction's press, and
      crossing back its release, whatever the D-pad does. */
  lemma StickCrossingsX(prev: PadState, cur: PadState, flipY: bool, player: PlayerRef)
    requires cur.isConnected
    ensures var ms := PadMessages(prev, cur, flipY, player);
            && (prev.stickX <= 0.5 && cur.stickX > 0.5 ==> InputMessage(ControlsRight, Some(true), None, player) in ms)
            && (prev.stickX > 0.5 && cur.stickX <= 0.5 ==> InputMessage(ControlsRight, Some(false), None, player) in ms)
            && (prev.stickX >= -0.5 && cur.stickX < -0.5 ==> InputMessage(ControlsLeft, Some(true), None, player) in ms)
            && (prev.stickX < -0.5 && cur.stickX >= -0.5 ==> InputMessage(ControlsLeft, Some(false), None, player) in ms)
  {
    ButtonsStickX(Held(prev, flipY), Held(cur, flipY), player);
  }

  /** The same on Y after multiplying by the sign, where above 0.5 is down. */
  lemma StickCrossingsY(prev: PadState, cur: PadState, flipY: bool, player: PlayerRef)
    requires cur.isConnected
    ensures var ms := PadMessages(prev, cur, flipY, player);
            && (SignedY(prev, flipY) <= 0.5 && SignedY(cur, flipY) > 0.5 ==> InputMessage(ControlsDown, Some(true), None, player) in ms)
            && (SignedY(prev, flipY) > 0.5 && SignedY(cur, flipY) <= 0.5 ==> InputMessage(ControlsDown, Some(false), None, player) in ms)
            && (SignedY(prev, flipY) >= -0.5 && SignedY(cur, flipY) < -0.5 ==> InputMessage(ControlsUp, Some(true), None, player) in ms)
            && (SignedY(prev, flipY) < -0.5 && SignedY(cur, flipY) >= -0.5 ==> InputMessage(ControlsUp, Some(false), None, player) in ms)
  {
    ButtonsStickY(Held(prev, flipY), Held(cur, flipY), player);
  }

  /** An input that did not move raises nothing. */
  lemma {:induction false} SteadyIsSilent(edges: seq<Edge>, player: PlayerRef)
    requires forall j :: 0 <= j < |edges| ==> edges[j].was == edges[j].now
    ensures Presses(edges, player) == [] && Releases(edges, player) == []
  {
    if edges != [] {
      SteadyIsSilent(edges[1..], player);
    }
  }

  /** Inputs that did not change raise nothing ... */
  lemma ButtonsSteadyIsSilent(b: Buttons, player: PlayerRef)
    ensures ButtonMessages(b, b, player) == []
  {
    SteadyIsSilent(PressEdges(b, b), player);
    SteadyIsSilent(ReleaseEdges(b, b), player);
  }

  /** ... so a pad whose state did not change raises nothing. */
  lemma PadSteadyIsSilent(prev: PadState, flipY: bool, player: PlayerRef)
    ensures PadMessages(prev, prev, flipY, player) == []
  {
    ButtonsSteadyIsSilent(Held(prev, flipY), player);
  }

  /** In presses followed by releases, no press comes after a release. */
  lemma PressesBeforeReleases(pe: seq<Edge>, re: seq<Edge>, player: PlayerRef)
    ensures var ms := Presses(pe, player) + Releases(re, player);
      forall i, j :: 0 <= i < j < |ms| && ms[j].pressed == Some(true) ==> ms[i].pressed == Some(true)
  {
    var p := Presses(pe, player);
    var r := Releases(re, player);
    PressesMembers(pe, player);
    ReleasesMembers(re, player);
    var ms := p + r;
    forall k | |p| <= k < |ms|
      ensures ms[k].pressed == Some(false)
    {
      assert ms[k] == r[k - |p|] && r[k - |p|] in r;
    }
    forall i | 0 <= i < |p|
      ensures ms[i].pressed == Some(true)
    {
      assert ms[i] == p[i] && p[i] in p;
    }
  }

  /** A pad raises all its press messages before any release message. */
  lemma PadPressesFirst(prev: PadState, cur: PadState, flipY: bool, player: PlayerRef)
    ensures var ms := PadMessages(prev, cur, flipY, player);
      forall i, j :: 0 <= i < j < |ms| && ms[j].pressed == Some(true) ==> ms[i].pressed == Some(true)
  {
    if cur.isConnected {
      var b0, b1 := Held(prev, flipY), Held(cur, flipY);
      assert PadMessages(prev, cur, flipY, player) == Presses(PressEdges(b0, b1), player) + Releases(ReleaseEdges(b0, b1), player);
      PressesBeforeReleases(PressEdges(b0, b1), ReleaseEdges(b0, b1), player);
    }
  }
}
