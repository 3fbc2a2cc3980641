# Ballz core in Dafny

Ballz is an artillery game. Balls on a destructible 2D terrain fire shots at each other. This project models the parts of `Ballz.Core` that hold the game's bookkeeping and proves properties about them. The physics engine, the terrain's geometry and the hardware stay outside the model.

- **Physics bridge** (`physics.dfy`, module `Physics`). This is `PhysicsControl`. It keeps the entity list and the engine's bodies in step:
  - Terrain bodies are rebuilt when the terrain revision changes.
  - Disposed and out-of-bounds entities are removed together with their bodies.
  - New entities get bodies. Each body is mapped back to its entity's ID, and the entity's state is pushed into it.
  - After each step, positions and velocities are written back.
  - Shots resolve their impact: a crater in the terrain, or damage and an impulse on a ball. A shot resolves either through its collision handler or, for instant shots, through a ray cast.
  - A game message toggles the component on and off.

  Engine bodies are integer handles. Each handle maps to the body's type, shape, material, transform, velocity, accumulated impulse and collision handler. The engine's own computations come in as parameters: the contacts of a step, the integrated motion, and the ray-cast results.
- **Live world** (`entities.dfy`, module `Entities`). This holds:
  - the entity objects;
  - the live entity list with its terrain (`GameWorld`, including `EntityById`);
  - the terrain as the core sees it, which is a revision counter, its outline, its scale and the circle subtractions asked of it.
- **Snapshot history** (`history.dfy`, module `History`). This is `World`:
  - a FIFO of at most 6 snapshots;
  - a head time that grows by 16 ms per append;
  - the view interpolated between two neighbouring snapshots.
- **Input translation** (`input.dfy` and `pad_properties.dfy`, modules `Input` and `PadProperties`). This is `InputTranslator`:
  - keyboard edge detection (`ChangedKeys`);
  - the key table;
  - gamepad edge detection over abstract pad states;
  - the order in which messages are raised.
- **Game-state machine** (`logic.dfy`, module `Logic`). This is `LogicControl`, with its menu stack, game state and raw-input flag:
  - the handlers it registers on the menu;
  - `StartGame` and `ContinueGame`;
  - the menu and game input logic.

  Each method of the class is proved equal to a function on the whole state (`Machine`). The properties are lemmas about those functions.
- **Worms game mode** (`worms.dfy`, module `SessionFactory`):
  - the mode's name;
  - spawn-point scanning on the map image;
  - random spawn selection;
  - creation of teams, balls and controllers.
- **Weapons** (`weapons.dfy`, module `Weapons`). This is `WeaponControl.FireProjectile` and the default `Update`. The default `HandleInput` is a method with an empty frame, so it changes nothing.
- **Messages** (`messages.dfy`, module `Messages`). This is the immutable `InputMessage` and the message kinds that the components exchange.

`geometry.dfy` (module `Geometry`) holds shared building blocks: vectors over the reals, `Option`, and one lemma about appending sequences.

## Model

In the source column, paths are relative to the repository root.

| member | source | states |
|---|---|---|
| Messages.NewInputMessage | Ballz.Core/Messages/InputMessage.cs:32-38 | The message has kind InputMessage and holds exactly the given control, pressed flag, character and player. |
| Messages.ControlButtonHasThirteenValues | Ballz.Core/Messages/InputMessage.cs:9-24 | `ControlButton` has exactly 13 pairwise distinct values. Every control is one of them. |
| Entities.Terrain.SubtractCircle | Ballz.Core/GameSession/Physics/PhysicsComponent.cs:284 | A circle subtraction raises the terrain revision. It records exactly that crater after the earlier ones and keeps the scale. |
| Entities.RemoveFirst | Ballz.Core/GameSession/Physics/PhysicsComponent.cs:111 | `List.Remove`: a list without the entity is unchanged, a list with it loses exactly one element, and nothing new appears. |
| Entities.RemoveFirstAt | Ballz.Core/GameSession/Physics/PhysicsComponent.cs:111 | Suppose the entity is not in the part of the list before it. Then removing it leaves exactly the parts before and after. |
| Entities.GameWorld.EntityById | Ballz.Core/GameSession/Physics/PhysicsComponent.cs:291 | The result is a live entity with the requested ID, or null exactly when no live entity has that ID. |
| Entities.GameWorld.constructor | Ballz.Core/SessionFactory/Worms.cs:145 | The new world holds the given entity list and terrain. |
| Entities.Entity.Dispose | Ballz.Core/GameSession/Physics/PhysicsComponent.cs:110 | After disposal the entity is marked disposed. |
| History.RecentAppend | Ballz.Core/GameSession/World/World.cs:84-88 | Appending and then evicting index 0 on overflow keeps the most recent snapshots (at most 6) in insertion order, with the new one last. |
| History.FindById | Ballz.Core/GameSession/World/World.cs:52 | The result is the first entity with the ID. It is None exactly when no entity has the ID. |
| History.IndicesInBounds | Ballz.Core/GameSession/World/World.cs:41-48 | When the requested time is before the head time and there are at least 2 snapshots, `0 <= preIndex` and `preIndex + 1 <= Count - 1`. |
| History.AlphaRange | Ballz.Core/GameSession/World/World.cs:41-46 | Alpha lies in [0, 1), except when the lower index was clamped to 0. In that case alpha equals the (negative) time in shots and is not clamped. |
| History.Interpolated | Ballz.Core/GameSession/World/World.cs:33-69 | A single snapshot is returned verbatim. A time at or after the head time returns the latest snapshot. |
| History.LerpEntities | Ballz.Core/GameSession/World/World.cs:49-64 | The loop builds, entity by entity, the interpolation of the earlier snapshot towards the later one. |
| History.InterpolationFollowsPre | Ballz.Core/GameSession/World/World.cs:50-64 | The result has one entity per pre-snapshot entity, with the same ID, kind and order. An entity the post snapshot lacks passes through unchanged. A matched entity has position, rotation and velocity blended by alpha. No post-only entity appears. |
| History.InterpolatedKeepsPreGeometry | Ballz.Core/GameSession/World/World.cs:41-65 | Both neighbour indices are in bounds. The interpolated view keeps the pre snapshot's terrain and holds only entities whose IDs the pre snapshot has. |
| History.World.constructor | Ballz.Core/GameSession/World/World.cs:15-19 | The buffer starts empty with head time 0. |
| History.World.AddDiscreteSnapshot | Ballz.Core/GameSession/World/World.cs:84-91 | The snapshot is appended as the newest. Index 0 is evicted once there are more than 6. The head time advances by exactly 16 ms. The buffer invariant (most recent appends, at most 6) is kept. |
| History.World.GetHeadSnapshot | Ballz.Core/GameSession/World/World.cs:71-74 | Returns the most recently appended snapshot. |
| History.World.GetSnapshot | Ballz.Core/GameSession/World/World.cs:33-69 | The method computes the interpolated view that `Interpolated` specifies. |
| History.HeadTimeCountsAppends | Ballz.Core/GameSession/World/World.cs:16-22 | After n appends, the head time is 16 ms × n and the buffer holds min(n, 6) snapshots. |
| Input.DifferenceMembers | Ballz.Core/Input/InputTranslator.cs:159-178 | A key is in `ChangedKeys(a, b)` exactly when it is in a and not in b. |
| Input.DifferenceWithSelf | Ballz.Core/Input/InputTranslator.cs:159-178 | `ChangedKeys(a, a)` is empty. |
| Input.PressedAndReleasedDisjoint | Ballz.Core/Input/InputTranslator.cs:180-189 | No key is both pressed (current minus previous) and released (previous minus current). |
| Input.KeyTable | Ballz.Core/Input/InputTranslator.cs:196-258 | Exactly the mapped keys raise a message, each with the given pressed flag:<br>• arrows, LeftControl, Enter, RightControl, Space, PageUp and PageDown go to player 1;<br>• W, S, A, D, E and Q go to player 2;<br>• Escape raises Back with no player;<br>• tilde, pipe and F1 raise Console with no player. |
| Input.KeyMessagesOnePerMappedKey | Ballz.Core/Input/InputTranslator.cs:196-258 | One message per mapped key of the list, each carrying the given pressed flag. |
| Input.PressesPrecedeReleases | Ballz.Core/Input/InputTranslator.cs:180-189 | Among the keyboard messages, no pressed=true message follows a pressed=false one. |
| Input.SameKeysNoMessages | Ballz.Core/Input/InputTranslator.cs:180-189 | An unchanged keyboard state raises nothing. |
| Input.FlipsStickY | Ballz.Core/Input/InputTranslator.cs:50-53 | The platform test is true on every platform, so the stick's Y axis is always multiplied by -1. |
| Input.PressesMembers | Ballz.Core/Input/InputTranslator.cs:56-80 | A press message is raised exactly for the inputs of the press table that went from released to pressed. |
| Input.ReleasesMembers | Ballz.Core/Input/InputTranslator.cs:82-106 | A release message is raised exactly for the inputs of the release table that went from pressed to released. |
| Input.InputTranslator.constructor | Ballz.Core/Input/InputTranslator.cs:26-41 | Both keyboard states start as the current one, and all four pads start at their defaults. |
| Input.InputTranslator.ChangedKeys | Ballz.Core/Input/InputTranslator.cs:159-178 | The nested loops with their flag compute the list difference `Difference(a, b)`. |
| Input.InputTranslator.EmitKeyMessages | Ballz.Core/Input/InputTranslator.cs:196-258 | Appends to the message log exactly the table's messages for the keys, in list order. |
| Input.InputTranslator.ProcessControlInput | Ballz.Core/Input/InputTranslator.cs:180-189 | Raises the pressed keys' messages, then the released keys' messages. |
| Input.InputTranslator.ProcessTextInput | Ballz.Core/Input/InputTranslator.cs:191-194 | Raises exactly one pressed `ControlsText` message carrying the character, with no player. |
| Input.InputTranslator.ProcessGamePadInput | Ballz.Core/Input/InputTranslator.cs:48-110 | A connected pad raises its transitions, with Y flipped. The pad's state becomes its previous state whether or not it is connected. No other pad's previous state changes. |
| Input.InputTranslator.UpdatePads | Ballz.Core/Input/InputTranslator.cs:114-117 | Pads 1 to 4 are processed in order. Their messages are logged in that order, and every previous pad state becomes the current one. |
| Input.InputTranslator.Update | Ballz.Core/Input/InputTranslator.cs:112-129 | The pads are handled first. Keyboard messages are raised only when the keyboard state changed, and afterwards both keyboard states equal the current one. |
| PadProperties.PadBack | Ballz.Core/Input/InputTranslator.cs:64-102 | On a connected pad, a Back press is raised exactly when B goes from released to pressed. A Back release is raised exactly on the reverse. |
| PadProperties.PadAction | Ballz.Core/Input/InputTranslator.cs:66-104 | The same for A and Action. |
| PadProperties.PadUpAtRest | Ballz.Core/Input/InputTranslator.cs:56-94 | With the stick at rest, D-pad up alone decides the Up press and release, each exactly on its transition. |
| PadProperties.PadDownAtRest | Ballz.Core/Input/InputTranslator.cs:58-96 | The same for D-pad down and Down. |
| PadProperties.PadLeftAtRest | Ballz.Core/Input/InputTranslator.cs:60-98 | The same for D-pad left and Left. |
| PadProperties.PadRightAtRest | Ballz.Core/Input/InputTranslator.cs:62-100 | The same for D-pad right and Right. |
| PadProperties.PadJumpAtRest | Ballz.Core/Input/InputTranslator.cs:68-106 | With the stick button at rest, X alone decides the Jump press and release. |
| PadProperties.StickCrossingsX | Ballz.Core/Input/InputTranslator.cs:71-85 | The stick's X crossing above 0.5 raises a Right press, and crossing back raises its release. The same holds at -0.5 for Left, whatever the D-pad does. |
| PadProperties.StickCrossingsY | Ballz.Core/Input/InputTranslator.cs:75-89 | The same on Y after the sign, with above 0.5 meaning Down and below -0.5 meaning Up. |
| PadProperties.PadSteadyIsSilent | Ballz.Core/Input/InputTranslator.cs:54-106 | A pad whose state did not change raises nothing. |
| PadProperties.PadPressesFirst | Ballz.Core/Input/InputTranslator.cs:56-106 | A pad raises all its press messages before any release message. |
| Logic.PopSpec | Ballz.Core/Logic/LogicControl.cs:63-67 | The top menu is popped and nothing else changes. The new top is announced. Popping the last menu ends in the exception that `Peek` throws on an empty stack. |
| Logic.SelectSpec | Ballz.Core/Logic/LogicControl.cs:57-73 | Activating an item has these effects:<br>• a submenu is pushed;<br>• a back item pops;<br>• an input box turns raw input on and keeps the stack;<br>• any other item only records the activation.<br>The game state is untouched in every case. |
| Logic.GoBackSpec | Ballz.Core/Logic/LogicControl.cs:220-227 | The selected item, or the menu itself when nothing is selected, is deactivated first. The menu is left exactly when the item's unselect test holds. State and raw input are kept. |
| Logic.MenuGuard | Ballz.Core/Logic/LogicControl.cs:162 | Raw input and raw backspace always pass. Another control passes only when pressed. A null `Pressed` on another control throws. |
| Logic.ItemEffects | Ballz.Core/Logic/LogicControl.cs:200-212 | The selected item hears left and right only if it is chooseable. It hears raw keys (with a character) and backspace only if it consumes raw input. At most one call is made. |
| Logic.ConsoleRaisesPerformanceFirst | Ballz.Core/Logic/LogicControl.cs:108-112 | A pressed Console raises a performance message before anything else, in either state. |
| Logic.BackLeavesGame | Ballz.Core/Logic/LogicControl.cs:129-139 | In the game, a pressed Back switches to the menu state and raises exactly one game message. Nothing else changes. |
| Logic.GameIgnoresOtherInput | Ballz.Core/Logic/LogicControl.cs:129-157 | In the game, every other message with a `Pressed` value changes nothing except the console's performance message. |
| Logic.NullPressedFails | Ballz.Core/Logic/LogicControl.cs:106-162 | A null `Pressed` is an error in the game for every control, and in the menu for every control except raw input and raw backspace. Such an error leaves the state as it was. |
| Logic.EmptyStackFailsInMenu | Ballz.Core/Logic/LogicControl.cs:159-161 | Once the menu stack is empty, every input in the menu state fails at `Peek`. Only the effect log may change, with the console's performance message. |
| Logic.ReleasedIgnoredInMenu | Ballz.Core/Logic/LogicControl.cs:159-163 | In the menu, a released control other than raw input and raw backspace is ignored. |
| Logic.UpDownInMenu | Ballz.Core/Logic/LogicControl.cs:184-199 | In the menu, Up and Down move the top menu's selection and announce that menu, but only when the menu has a selected item. Otherwise nothing changes. |
| Logic.BackInMenu | Ballz.Core/Logic/LogicControl.cs:169-183 | In the menu, a pressed Back has these effects:<br>• at stack depth 1, the game is asked to exit and the stack stays;<br>• deeper with raw input on, only raw input is cleared;<br>• deeper otherwise, `MenuGoBack` runs.<br>In every case the last effect announces the menu then on top. |
| Logic.StartEntersGame | Ballz.Core/Logic/LogicControl.cs:33-47 | `StartGame` ends in the game with a match. It disposes the old match exactly when there was one. Its last effect is the game message. |
| Logic.StartRaisesOneGameMessage | Ballz.Core/Logic/LogicControl.cs:33-47 | `StartGame` raises exactly one game message. |
| Logic.LeavingIsQuiet | Ballz.Core/Logic/LogicControl.cs:220-227 | `MenuGoBack` raises no game message and disposes no match. |
| Logic.ContinueEntersGame | Ballz.Core/Logic/LogicControl.cs:49-53 | `ContinueGame` enters the game, keeps the menu stack and the flags, and raises exactly one game message. |
| Logic.LogicControl.constructor | Ballz.Core/Logic/LogicControl.cs:21-31 | The main menu is alone on the stack, in the menu state, with raw input off. |
| Logic.LogicControl.RaiseMessageEvent | Ballz.Core/Logic/LogicControl.cs:87-90 | The message is raised and nothing else changes. |
| Logic.LogicControl.PopAndAnnounce | Ballz.Core/Logic/LogicControl.cs:63-67 | The method does what `PopSpec` says of the whole state. |
| Logic.LogicControl.OnSelectComposite | Ballz.Core/Logic/LogicControl.cs:57-61 | Pushes the submenu and announces it. Nothing else changes. |
| Logic.LogicControl.OnSelectInputBox | Ballz.Core/Logic/LogicControl.cs:69-73 | Turns raw input on and announces the input box. Nothing else changes. |
| Logic.LogicControl.OnUnselect | Ballz.Core/Logic/LogicControl.cs:75-82 | Pops and announces when the item's test holds. Otherwise nothing changes. |
| Logic.LogicControl.Activate | Ballz.Core/Logic/LogicControl.cs:167 | The method does what `SelectSpec` says of the whole state. |
| Logic.LogicControl.MenuGoBack | Ballz.Core/Logic/LogicControl.cs:220-227 | The method does what `GoBackSpec` says of the whole state. |
| Logic.LogicControl.StartGame | Ballz.Core/Logic/LogicControl.cs:33-47 | The method does what `StartSpec` says of the whole state. |
| Logic.LogicControl.BeginMatch | Ballz.Core/Logic/LogicControl.cs:38-46 | Selects the first entry of the top menu and enters the game. Disposes the old match exactly when there is one, starts the new match, then raises the game message. |
| Logic.LogicControl.ContinueGame | Ballz.Core/Logic/LogicControl.cs:49-53 | The method does what `ContinueSpec` says of the whole state. |
| Logic.LogicControl.GameLogic | Ballz.Core/Logic/LogicControl.cs:129-157 | The method does what `GameSpec` says of the whole state. |
| Logic.LogicControl.MenuBack | Ballz.Core/Logic/LogicControl.cs:169-183 | The method does what `MenuBackSpec` says of the whole state. |
| Logic.LogicControl.MenuLogic | Ballz.Core/Logic/LogicControl.cs:159-218 | The method does what `MenuSpec` says of the whole state. |
| Logic.LogicControl.HandleInputMessage | Ballz.Core/Logic/LogicControl.cs:106-127 | The method does what `HandleSpec` says of the whole state. |
| Weapons.MuzzleOutsideBall | Ballz.Core/GameSession/Logic/Weapons/WeaponControl.cs:36 | With a unit aim, the shot starts strictly outside the ball. |
| Weapons.LaunchSpeed | Ballz.Core/GameSession/Logic/Weapons/WeaponControl.cs:37 | With a unit aim, the squared launch speed is (30 × charge)². |
| Weapons.WeaponControl.constructor | Ballz.Core/GameSession/Logic/Weapons/WeaponControl.cs:14-18 | Stores the ball and the game's world. |
| Weapons.WeaponControl.FireProjectile | Ballz.Core/GameSession/Logic/Weapons/WeaponControl.cs:28-41 | Appends exactly one new shot and touches no other entity. The shot has:<br>• explosion radius 1 and direct-hit damage 25;<br>• the instant flag off;<br>• position = ball position + aim × (radius + 0.101);<br>• velocity = aim × charge × 30.<br>The ball's charge becomes 0. |
| Weapons.WeaponControl.Update | Ballz.Core/GameSession/Logic/Weapons/WeaponControl.cs:47 | The default weapon never finishes the turn. |
| SessionFactory.Name | Ballz.Core/SessionFactory/Worms.cs:28 | The name is "Worms (", then the map name, then ", turn mode" in turn mode, then ")". |
| SessionFactory.NameDeterminesMap | Ballz.Core/SessionFactory/Worms.cs:28 | For a given mode, the name determines the map. |
| SessionFactory.NameHidesMode | Ballz.Core/SessionFactory/Worms.cs:28 | The name does not determine the mode. A map whose name ends in ", turn mode" reads like turn mode. |
| SessionFactory.PixelIndexInBounds | Ballz.Core/SessionFactory/Worms.cs:36-46 | Pixel (x, y) at index y·w + x lies inside the w·h pixel array. |
| SessionFactory.SpawnPointsAreGreenPixels | Ballz.Core/SessionFactory/Worms.cs:32-50 | A point is a spawn point of the map exactly when it is (x·scale, (h−y)·scale) for a pure green pixel (x, y). |
| SessionFactory.ControllerFor | Ballz.Core/SessionFactory/Worms.cs:130-137 | A ball's controller is for that ball. It is the AI's exactly when the team is controlled by the AI. |
| SessionFactory.Session.constructor | Ballz.Core/SessionFactory/Worms.cs:100-104 | The new session has the mode's turn flag and terrain, and no entities, players or controllers. |
| SessionFactory.NewBall | Ballz.Core/SessionFactory/Worms.cs:117-125 | The new ball has:<br>• the given position and zero velocity;<br>• aiming on and the weapon "Bazooka";<br>• the static flag off;<br>• the given owner;<br>• no body and the disposed flag off. |
| SessionFactory.Worms.constructor | Ballz.Core/SessionFactory/Worms.cs:19-23 | Stores the map name and turn flag. There are no spawn points yet. |
| SessionFactory.Worms.FindSpawnPoints | Ballz.Core/SessionFactory/Worms.cs:32-50 | Appends the map's spawn points column by column and keeps the earlier ones, so a repeated call lists them twice. |
| SessionFactory.Worms.SelectSpawnpoints | Ballz.Core/SessionFactory/Worms.cs:52-81 | Returns exactly `count` points (none for a negative count), each one of `SpawnPoints`. Every ball gets at most 20 tries. A ball takes its first try that hits an index not yet chosen, and every earlier try hit a chosen index. A ball falls back only after all 20 tries hit chosen indices, and only a fallback may repeat an index. |
| SessionFactory.Worms.ImplInitializeSession | Ballz.Core/SessionFactory/Worms.cs:83-96 | Without a map, the map "Worlds/" + MapName is loaded and the settings adopt the mode's map name. With a map, the mode adopts the settings' map name. |
| SessionFactory.Worms.AddTeamBall | Ballz.Core/SessionFactory/Worms.cs:115-138 | The next ball is created at the next spawn point. It is added to the owner's balls and to the entities, and gets the team's kind of controller. |
| SessionFactory.Worms.AddTeamBalls | Ballz.Core/SessionFactory/Worms.cs:115-139 | Adds the team's balls in order at consecutive spawn points. Other balls' controllers are kept. |
| SessionFactory.Worms.CreateTeamBallz | Ballz.Core/SessionFactory/Worms.cs:111-143 | The player joins the session and owns its balls. The first ball is active, and its controller becomes the player's. |
| SessionFactory.Worms.CreateTeamAt | Ballz.Core/SessionFactory/Worms.cs:111-143 | Team i's balls follow those of earlier teams, and earlier teams' state is kept. |
| SessionFactory.Worms.CreateTeams | Ballz.Core/SessionFactory/Worms.cs:110-143 | Every team is set up in order, and their balls are numbered consecutively. |
| SessionFactory.Worms.ImplStartSession | Ballz.Core/SessionFactory/Worms.cs:98-149 | Creates exactly Σ NumberOfBallz balls. Ball k stands on the k-th drawn spawn point. That is a point of `SpawnPoints`, which also holds the points of earlier scans. Each team's balls are its player's, the first one active, with the controllers the team calls for. The live world holds the session's entities and terrain. |
| Physics.Damaged | Ballz.Core/GameSession/Physics/PhysicsComponent.cs:295-297 | Health drops by the damage and never below zero. |
| Physics.BallFacesSideways | Ballz.Core/GameSession/Physics/PhysicsComponent.cs:220-227 | A ball faces ±90°. It faces −90° exactly when its squared speed exceeds 0.0001 and it is not moving right. |
| Physics.ShotsOf | Ballz.Core/GameSession/Physics/PhysicsComponent.cs:246-249 | Exactly the shots of the list. |
| Physics.InstantShots | Ballz.Core/GameSession/Physics/PhysicsComponent.cs:253 | Exactly the instant shots of the list. |
| Physics.RaysOf | Ballz.Core/GameSession/Physics/PhysicsComponent.cs:265 | Each shot casts one ray, from its position to position + 100 × velocity. |
| Physics.RemoveFirstExactly | Ballz.Core/GameSession/Physics/PhysicsComponent.cs:267 | With unique IDs, `Remove` drops exactly that entity and keeps the IDs unique. |
| Physics.RemoveAllExactly | Ballz.Core/GameSession/Physics/PhysicsComponent.cs:251-268 | With unique IDs, removing each fired shot leaves exactly the entities that were not fired. |
| Physics.ScaleOutline | Ballz.Core/GameSession/Physics/PhysicsComponent.cs:87-92 | Every vertex of the polyline is multiplied by the terrain scale. |
| Physics.FilterMask | Ballz.Core/GameSession/Physics/PhysicsComponent.cs:137-144 | The sync loop keeps exactly the entities that are neither disposed nor beyond distance 100. |
| Physics.FilterUnique | Ballz.Core/GameSession/Physics/PhysicsComponent.cs:137-144 | Removing entities keeps IDs unique. |
| Physics.Toggled | Ballz.Core/GameSession/Physics/PhysicsComponent.cs:306-317 | The `Enabled` flag flips exactly on a game message. |
| Physics.ToggledParity | Ballz.Core/GameSession/Physics/PhysicsComponent.cs:306-317 | After a run of messages, the flag is back where it started exactly when an even number of game messages went by. |
| Physics.PhysicsControl.constructor | Ballz.Core/GameSession/Physics/PhysicsComponent.cs:52-60 | The engine holds only the ground plate. Nothing is mapped, there are no terrain bodies, the cached revision is −1, and the component is enabled. |
| Physics.PhysicsControl.UpdateTerrainBody | Ballz.Core/GameSession/Physics/PhysicsComponent.cs:66-103 | Every old terrain body is disposed. Exactly one static chain body per outline polyline remains, scaled by `terrain.Scale`. Every other body is kept as it was. |
| Physics.PhysicsControl.BuildTerrainBodies | Ballz.Core/GameSession/Physics/PhysicsComponent.cs:85-102 | One fresh body per polyline, in outline order. Existing bodies are kept. |
| Physics.PhysicsControl.DisposeTerrainBodies | Ballz.Core/GameSession/Physics/PhysicsComponent.cs:68-76 | Exactly the terrain bodies leave the engine. Every other body is unchanged. |
| Physics.PhysicsControl.RemoveEntity | Ballz.Core/GameSession/Physics/PhysicsComponent.cs:108-123 | The entity ends disposed, off the live list and without a body. Its body, if any, leaves both the engine and the map. Nothing else changes. |
| Physics.PhysicsControl.Victim | Ballz.Core/GameSession/Physics/PhysicsComponent.cs:287-293 | The damaged entity is a live ball. There is one exactly when the hit body is mapped, is not terrain, and its ID names a live ball. |
| Physics.PhysicsControl.ApplyImpact | Ballz.Core/GameSession/Physics/PhysicsComponent.cs:276-303 | The four cases of the impact rule:<br>• nothing hit: no effect;<br>• a terrain body: a crater at the hit point with radius 0.04·\|v\|·ExplosionRadius;<br>• a mapped ball: health clamped at zero and an impulse of 10·v, which throws when the ball has no body;<br>• anything else: no effect.<br>No other entity's health changes. |
| Physics.PhysicsControl.OnShotCollision | Ballz.Core/GameSession/Physics/PhysicsComponent.cs:167-190 | Once `TargetId > 0` the handler has no effect. Otherwise it records the hit point, records the target ID only for a mapped body, applies the impact once and disposes the shot. |
| Physics.PhysicsControl.CreateBody | Ballz.Core/GameSession/Physics/PhysicsComponent.cs:146-192 | The entity gets a fresh body that is mapped to its ID. The body is static exactly when the entity is static, and has a circle of the entity's radius. A ball gets friction 2, restitution 0.1, fixed rotation and mass 10. A shot's body carries its collision handler. |
| Physics.PhysicsControl.PushState | Ballz.Core/GameSession/Physics/PhysicsComponent.cs:194-197 | The body's transform and velocity become the entity's. |
| Physics.PhysicsControl.SyncEntity | Ballz.Core/GameSession/Physics/PhysicsComponent.cs:146-197 | A kept entity ends with a live body mapped to its ID that carries its transform and velocity. The entity's existing body is reused, or a fresh one is created. |
| Physics.PhysicsControl.SyncStep | Ballz.Core/GameSession/Physics/PhysicsComponent.cs:138-198 | One turn of the sync loop keeps the loop invariant. Bodies no entity is mapped to are untouched. |
| Physics.PhysicsControl.DropStep | Ballz.Core/GameSession/Physics/PhysicsComponent.cs:140-144 | A removed entity goes through `RemoveEntity`. No body is added, and no other entity's standing changes. |
| Physics.PhysicsControl.KeepStep | Ballz.Core/GameSession/Physics/PhysicsComponent.cs:146-197 | A kept entity is synced, and no other entity's standing changes. |
| Physics.PhysicsControl.SyncLoop | Ballz.Core/GameSession/Physics/PhysicsComponent.cs:137-198 | After the loop, every entity of the copied list is either gone (disposed, no body, its body unmapped and disposed) or synced. |
| Physics.PhysicsControl.SyncEntities | Ballz.Core/GameSession/Physics/PhysicsComponent.cs:137-198 | The live list ends as exactly the entities that were not removed, in order, and stays attached to the map. Terrain bodies are untouched. |
| Physics.PhysicsControl.SyncedAttached | Ballz.Core/GameSession/Physics/PhysicsComponent.cs:137-198 | After the loop, IDs are unique and every body an entity holds maps back to that entity's ID. |
| Physics.PhysicsControl.PreparePhysicsEngine | Ballz.Core/GameSession/Physics/PhysicsComponent.cs:129-199 | Terrain bodies are rebuilt only when the revision differs, and afterwards the cache equals the revision. Removed entities go through `RemoveEntity`. Every survivor holds a live body mapped to its ID, with its transform and velocity. |
| Physics.PhysicsControl.RefreshTerrain | Ballz.Core/GameSession/Physics/PhysicsComponent.cs:131-134 | With an unchanged revision, the terrain bodies stay as they are. With a changed one they are rebuilt. Afterwards the cached revision is the terrain's. |
| Physics.PhysicsControl.WriteBack | Ballz.Core/GameSession/Physics/PhysicsComponent.cs:210-228 | Every live entity with a body takes the body's position and velocity, and a ball faces the way it moves. Every other entity keeps its position, velocity and rotation. |
| Physics.PhysicsControl.WriteBackLoop | Ballz.Core/GameSession/Physics/PhysicsComponent.cs:210-228 | The loop does the write-back entity by entity. |
| Physics.PhysicsControl.FireHandler | Ballz.Core/GameSession/Physics/PhysicsComponent.cs:167-190 | The handler of the touched body, if it has one, does what `OnShotCollision` says. A body without a handler changes nothing. |
| Physics.PhysicsControl.Collide | Ballz.Core/GameSession/Physics/PhysicsComponent.cs:207 | Throughout a step's callbacks, shots that already have a target stay as they are and disposed shots stay disposed. The terrain only gains craters. |
| Physics.PhysicsControl.FireContact | Ballz.Core/GameSession/Physics/PhysicsComponent.cs:207 | The handlers of both bodies of a contact keep the same guarantees. |
| Physics.PhysicsControl.EngineStep | Ballz.Core/GameSession/Physics/PhysicsComponent.cs:207 | After the callbacks, each body takes the position and velocity the engine integrated. |
| Physics.PhysicsControl.PhysicsStep | Ballz.Core/GameSession/Physics/PhysicsComponent.cs:204-229 | The engine steps, then positions and velocities are written back. Live bodies and the map stay as they were, so an entity that held a live body still does. |
| Physics.PhysicsControl.Advance | Ballz.Core/GameSession/Physics/PhysicsComponent.cs:241-242 | Prepare followed by step leaves exactly the kept entities, each with a live body. The cached revision becomes the terrain's revision from before the step, and with an unchanged revision the terrain bodies stay. Unless a handler threw, every live entity with a body stands where its body stands and moves as it moves, and a ball faces the way it moves. |
| Physics.PhysicsControl.Update | Ballz.Core/GameSession/Physics/PhysicsComponent.cs:231-271 | Nothing changes unless the match is running. Otherwise the list ends as the kept entities, in their order, with each kept instant shot removed by its first occurrence (`RemoveAll`), so exactly the kept entities that are not instant shots remain. Each removed instant shot still has a live body mapped to its ID, and no listed entity has that ID. The cached revision is the terrain's revision from before the update. The terrain ends with the craters of the step (`stepped`), followed by one crater for each kept instant shot whose ray hit terrain, in list order. |
| Physics.PhysicsControl.FireAll | Ballz.Core/GameSession/Physics/PhysicsComponent.cs:245-269 | Every instant shot leaves the list, whether or not it hit, and everything else stays in its order: the list is the old list with the instant shots removed one by one (`RemoveAll`). Each shot's body stays live and mapped. No body moves. The terrain gains exactly one crater per instant shot whose ray hit terrain, in list order. An entity that stood on its body still does. |
| Physics.PhysicsControl.FireInstantShots | Ballz.Core/GameSession/Physics/PhysicsComponent.cs:251-269 | Instant shots cast their rays in list order and are removed from the list one by one. The craters they cut are appended in that order, one per ray that hit terrain. No body moves. |
| Physics.PhysicsControl.FireNext | Ballz.Core/GameSession/Physics/PhysicsComponent.cs:253-268 | One turn of the instant-shot loop fires the shot exactly when it is instant. Its ray, its removal and its crater (when the ray hit terrain) extend those of the earlier turns. |
| Physics.PhysicsControl.FireInstantShot | Ballz.Core/GameSession/Physics/PhysicsComponent.cs:255-267 | The shot's ray is cast, and the impact is applied to the body and point that the ray cast reports: a crater for terrain, and damage and an impulse for a mapped ball. No other entity's health changes and no body moves. The shot is then removed by `List.Remove`. |
| Physics.TerrainCratersNext | Ballz.Core/GameSession/Physics/PhysicsComponent.cs:253-267 | One more turn of the instant-shot loop appends exactly that shot's crater to the craters of the earlier turns. |
| Physics.FiredNext | Ballz.Core/GameSession/Physics/PhysicsComponent.cs:253-267 | One more turn of the instant-shot loop removes that shot from the list exactly when it is instant, and otherwise leaves the list as it was. |
| Physics.TerrainCratersFromHits | Ballz.Core/GameSession/Physics/PhysicsComponent.cs:251-303 | At most one crater per fired shot. Each crater comes from an instant shot whose ray hit terrain, at the hit point and scaled by that shot. Without instant shots there are no craters. |
| Physics.PhysicsControl.TerrainHitTwice | Ballz.Core/GameSession/Physics/PhysicsComponent.cs:167-190 | Two terrain contacts on the same shot carve two craters. A terrain hit leaves `TargetId` unset, so the first-hit guard does not stop the second. |
| Physics.PhysicsControl.HandleMessage | Ballz.Core/GameSession/Physics/PhysicsComponent.cs:306-317 | The flag becomes the toggled flag. |

## Behaviour worth knowing

These follow from the code as written. They are not fixed in the model.

- **Instant-shot removal bypasses `RemoveEntity`.** Instant shots leave the entity list through `List.Remove` at `PhysicsComponent.cs:267` rather than `RemoveEntity`. Their body stays in the engine, and their entry in the body-to-ID map stays too. `Physics.PhysicsControl.Update` states this outright: the shot's body is live and mapped to an ID that no listed entity has.
- **The first-hit guard does not cover terrain.** The guard on a shot's collision handler tests `TargetId > 0`. A terrain hit never sets `TargetId`, because terrain bodies are not in the map, so every later contact of the same shot in the same step carves another crater (`TerrainHitTwice`).
- **The interpolation factor can be negative.** When the lower index is clamped to 0, alpha is the negative fractional position and is used unclamped (`AlphaRange`). `World.cs:37` marks the interpolation with a `//TODO: Fix snapshot interpolation` comment.
- **The write-back skips disposed entities.** The loop at `PhysicsComponent.cs:210-214` skips an entity that has no body and also one that is disposed, even if its body is still live (`Advance`).
- **The stick's Y axis is always flipped.** The platform test `!= Unix || != MacOSX` holds everywhere (`FlipsStickY`).
- **Repeated scans duplicate spawn points.** `FindSpawnPoints` appends, so calling it twice lists every spawn point twice. A factory reused for a second map keeps the first map's points, so its balls can be placed on spawn points of the earlier map.

## Left out

- **Physics engine internals.** The Farseer engine's own behaviour is left out: stepping, contact generation, integration, ray casting, fixtures, sleeping and the awake flag. The contacts of a step, the integrated motion of each body and the hit a ray cast reports last to its callback are parameters. The callback's fraction clipping belongs to the engine.
- **Elapsed time.** The elapsed time that `Update` passes to the engine is folded into those parameters.
- **Ball impulses.** The impulse applied to a ball accumulates on its body record. How the engine turns it into motion is not modelled.
- **Terrain internals.** `update`, `getOutline` and the effect of `SubtractCircle` on the outline are not modelled. The terrain is a revision, an outline, a scale and a log of circle subtractions.
- Physics.PhysicsControl.ApplyImpact: a crater is recorded as its centre, 0.04·ExplosionRadius and the squared shot speed, rather than as the single-precision radius 0.04·|v|·ExplosionRadius, because Dafny's reals have no square root.
- **Floating point.** Vectors, health, times and alpha are reals. No single-precision rounding is modelled.
- **Water and sound.** `worldState.Water.Step` (the fluid simulation) and the shot sound in `FireProjectile` are side effects and are left out.
- **External context.** `PerformanceReporter` and the `Ballz.The()` singleton are left out. `Game.Match` appears only as the `running` flag of `Update` and the `hasMatch` flag of the input translator and the logic. Each flag is fixed for the whole call, so a handler that starts or ends a match in the middle of an update is not modelled.
- **The component's `Enabled` flag.** `HandleMessage` toggles it, but the flag's effect on the game loop belongs to the XNA framework and is not modelled.
- Physics.PhysicsControl.Update: when a null reference is thrown (an impact on a ball without a body), the contract says only what holds before the throw. The partial state left by the exception is not described further. The write-back is stated after the step, by `Advance`: there every entity that is not disposed and holds a live body stands, moves and faces as its body does. `FireAll` states that the instant-shot pass moves no body, but `Update`'s own contract does not carry the write-back past that pass.
- Physics.PhysicsControl.Collide: states what holds across all contacts of a step (the first-hit guard, disposal is never undone, craters only accumulate). The effect of each contact is stated by `FireHandler`.
- History.Interpolated: a snapshot entity is reduced to six fields: ID, kind, material, position, rotation and velocity. An entity that only the pre snapshot has is passed through as the same object with all its fields (`World.cs:53-54`). A matched entity becomes a fresh `Entity(pre.Kind)` with only ID, material, position, rotation and velocity set (`World.cs:56-63`), so its other fields, such as health, take their defaults. That reset is not modelled.
- History.World.GetSnapshot: returns the six-field views that `Interpolated` specifies, so it inherits the same gap.
- **`GetDiscreteSnapshot`** (`World.cs:76-82`) is not modelled. It reads the frame's elapsed time and has no bounds guard.
- **Hardware input.** Keyboard, gamepad and SDL text input are parameters of the input translator's methods. `ProcessRawInput` is not called from anywhere in the translator and is left out.
- **The menu library.** Item selection, activation and the unselect test are a collaborator. The calls the logic makes into the library are logged as effects. The unselect test's result is the `leaves` parameter, and the exit request is an `Exited` effect.
- **Other `LogicControl` members.** `HandleNetworkMessage` has no effect in any branch and is left out. `CheckInputMode` is empty.
- SessionFactory.Worms.SelectSpawnpoints: `System.Random` is an arbitrary choice of index. No particular generator is modelled.
- SessionFactory.Worms.ImplStartSession: requires every team to field at least one ball and the teams' players to be distinct. With zero balls, line 142 looks up a null ball and throws, and that exception is not modelled. It also requires spawn points to exist when there are teams, because with none, line 80 indexes an empty list. It also requires each team's player to own no balls yet. The source accepts a player that already owns balls: line 125 appends the new balls after the old ones, line 141 makes the old first ball active, and line 142 looks that ball up among the controllers, which line 136 filled only with this session's balls. That lookup finds no entry, or an entry of an earlier session if the dictionary was shared. The model does not describe this case because `Session.cs`, which owns the dictionaries, is not part of this model.
- **Session collaborators.** The game's content loader is a function parameter of `ImplInitializeSession`. The session's `Terrain` is built by the caller, and the first entity ID comes from the caller.
- Weapons.WeaponControl.FireProjectile: the new shot's ID is a parameter. The counter that hands out entity IDs lives in the entity classes, which are not part of this model.
- **Rendering, networking and startup.** The renderers, the camera, the network server and the program entry point are not part of this model.
