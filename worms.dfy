/** The Worms game mode (Ballz.Core/SessionFactory/Worms.cs): it names
    itself after its map, reads spawn points off the map image, draws one
    spawn point per ball, and creates every team's balls, their controllers
    and the live world. */
module SessionFactory {
  import opened Geometry
  import opened Entities

  // Name

  /** "Worms (" + map name + ", turn mode" in turn mode + ")". */
  function Name(mapName: string, usePlayerTurns: bool): (name: string)
    ensures |name| == 8 + |mapName| + (if usePlayerTurns then 11 else 0)
    ensures name[..7] == "Worms (" && name[7..7 + |mapName|] == mapName && name[|name| - 1] == ')'
  {
    "Worms (" + mapName + (if usePlayerTurns then ", turn mode" else "") + ")"
  }

  /** With the mode known, the name gives the map back ... */
  lemma NameDeterminesMap(m1: string, m2: string, usePlayerTurns: bool)
    requires Name(m1, usePlayerTurns) == Name(m2, usePlayerTurns)
    ensures m1 == m2
  {
    assert m1 == Name(m1, usePlayerTurns)[7..7 + |m1|];
  }

  /** ... but not the mode: a map whose name ends in ", turn mode" reads
      like turn mode. */
  lemma NameHidesMode(mapName: string)
    ensures Name(mapName, true) == Name(mapName + ", turn mode", false)
  {
    assert "Worms (" + mapName + ", turn mode" + ")" == "Worms (" + (mapName + ", turn mode") + "" + ")";
  }

  // Spawn points on the map

  /** An XNA colour; colours are equal when all four channels are. */
  datatype Color = Color(r: nat, g: nat, b: nat, a: nat)

  /** `new Color(0f, 1f, 0f)`: opaque pure green. */
  const SpawnPointColor: Color := Color(0, 255, 0, 255)

  /** A map image, its pixels row after row as `GetData` copies them. */
  datatype Texture = Texture(width: nat, height: nat, pixels: seq<Color>)
  {
    predicate Valid()
    {
      |pixels| == width * height
    }
  }

  /** Pixel (x, y) sits at index y * width + x. */
  lemma PixelIndexInBounds(width: nat, height: nat, x: nat, y: nat)
    requires x < width && y < height
    ensures y * width + x < width * height
  {
    assert y * width + x < (y + 1) * width;
    assert (y + 1) * width <= height * width by {
      var d := height - (y + 1);
      assert height * width == (y + 1) * width + d * width;
    }
  }

  predicate IsSpawnPixel(image: Texture, x: nat, y: nat)
    requires image.Valid() && x < image.width && y < image.height
  {
    PixelIndexInBounds(image.width, image.height, x, y);
    image.pixels[y * image.width + x] == SpawnPointColor
  }

  /** The world position of pixel (x, y): x grows to the right, y upwards. */
  function SpawnPointAt(x: nat, y: nat, height: nat, scale: real): Vec2
  {
    Vec2(x as real * scale, (height - y) as real * scale)
  }

  /** The spawn points of column x among its first n rows, top to bottom. */
  function ColumnPoints(image: Texture, scale: real, x: nat, n: nat): seq<Vec2>
    requires image.Valid() && x < image.width && n <= image.height
  {
    if n == 0 then []
    else ColumnPoints(image, scale, x, n - 1)
         + (if IsSpawnPixel(image, x, n - 1) then [SpawnPointAt(x, n - 1, image.height, scale)] else [])
  }

  /** The spawn points of the first m columns, column after column. */
  function MapPoints(image: Texture, scale: real, m: nat): seq<Vec2>
    requires image.Valid() && m <= image.width
  {
    if m == 0 then []
    else MapPoints(image, scale, m - 1) + ColumnPoints(image, scale, m - 1, image.height)
  }

  function SpawnPointsOf(image: Texture, scale: real): seq<Vec2>
    requires image.Valid()
  {
    MapPoints(image, scale, image.width)
  }

  lemma {:induction false} ColumnPointsMembers(image: Texture, scale: real, x: nat, n: nat)
    requires image.Valid() && x < image.width && n <= image.height
    ensures forall p :: p in ColumnPoints(image, scale, x, n) <==>
      exists y :: 0 <= y < n && IsSpawnPixel(image, x, y) && p == SpawnPointAt(x, y, image.height, scale)
  {
    if n > 0 {
      ColumnPointsMembers(image, scale, x, n - 1);
    }
  }

  lemma {:induction false} MapPointsMembers(image: Texture, scale: real, m: nat)
    requires image.Valid() && m <= image.width
    ensures forall p :: p in MapPoints(image, scale, m) <==>
      exists x, y :: 0 <= x < m && 0 <= y < image.height && IsSpawnPixel(image, x, y) && p == SpawnPointAt(x, y, image.height, scale)
  {
    if m > 0 {
      MapPointsMembers(image, scale, m - 1);
      ColumnPointsMembers(image, scale, m - 1, image.height);
    }
  }

  /** A point is a spawn point of the map exactly when it is the position of
      a pure green pixel. */
  lemma SpawnPointsAreGreenPixels(image: Texture, scale: real, p: Vec2)
    requires image.Valid()
    ensures p in SpawnPointsOf(image, scale) <==>
      exists x, y :: 0 <= x < image.width && 0 <= y < image.height && IsSpawnPixel(image, x, y) && p == SpawnPointAt(x, y, image.height, scale)
  {
    MapPointsMembers(image, scale, image.width);
  }

  // Sessions

  /** The controller a ball gets: the computer's or the user's. */
  datatype Controller = AIControl(ball: Entity) | UserControl(ball: Entity)

  /** A team: its player, how many balls it fields, and who controls them. */
  datatype Team = Team(player: Player, numberOfBallz: int, controlledByAI: bool)

  function ControllerFor(team: Team, ball: Entity): (c: Controller)
    ensures c.ball == ball && (c.AIControl? <==> team.controlledByAI)
  {
    if team.controlledByAI then AIControl(ball) else UserControl(ball)
  }

  /** The balls of the first n teams. */
  function Offset(teams: seq<Team>, n: nat): int
    requires n <= |teams|
  {
    if n == 0 then 0 else Offset(teams, n - 1) + teams[n - 1].numberOfBallz
  }

  function TotalBalls(teams: seq<Team>): int
  {
    Offset(teams, |teams|)
  }

  lemma {:induction false} OffsetGrows(teams: seq<Team>, i: nat, j: nat)
    requires i <= j <= |teams|
    requires forall t :: 0 <= t < |teams| ==> teams[t].numberOfBallz >= 1
    ensures Offset(teams, i) + (j - i) <= Offset(teams, j)
  {
    if i < j {
      OffsetGrows(teams, i, j - 1);
    }
  }

  class GameSettings {
    var mapName: string
    var mapTexture: Option<Texture>
    const teams: seq<Team>

    constructor (mapName: string, mapTexture: Option<Texture>, teams: seq<Team>)
      ensures this.mapName == mapName && this.mapTexture == mapTexture && this.teams == teams
    {
      this.mapName := mapName;
      this.mapTexture := mapTexture;
      this.teams := teams;
    }
  }

  /** A game session: its entities and players, and the controllers of its
      balls and of its players (held by the session logic in the source). */
  class Session {
    var usePlayerTurns: bool
    var terrain: Terrain
    var entities: seq<Entity>
    var players: seq<Player>
    var ballControllers: map<Entity, Controller>
    var activeControllers: map<Player, Controller>

    constructor (usePlayerTurns: bool, terrain: Terrain)
      ensures this.usePlayerTurns == usePlayerTurns && this.terrain == terrain
      ensures entities == [] && players == [] && ballControllers == map[] && activeControllers == map[]
    {
      this.usePlayerTurns := usePlayerTurns;
      this.terrain := terrain;
      entities := [];
      players := [];
      ballControllers := map[];
      activeControllers := map[];
    }
  }

  /** What `ImplStartSession` makes of ball number k of a team. */
  ghost predicate IsNewBall(b: Entity, position: Vec2, owner: Player, id: int)
    reads b
  {
    && b.id == id && b.kind == BallKind && !b.disposed && b.physicsBody == None
    && b.position == position && b.velocity == Zero && b.isAiming
    && b.player == owner && b.holdingWeapon == "Bazooka" && !b.isStatic
  }

  /** Ball k of `balls` is the one created as ball number start + k. */
  ghost predicate BallsAt(balls: seq<Entity>, spawns: seq<Vec2>, owner: Player, firstId: int, start: nat)
    reads balls
  {
    && start + |balls| <= |spawns|
    && forall k :: 0 <= k < |balls| ==> IsNewBall(balls[k], spawns[start + k], owner, firstId + start + k)
  }

  lemma BallsAtExtend(balls: seq<Entity>, b: Entity, spawns: seq<Vec2>, owner: Player, firstId: int, start: nat)
    requires BallsAt(balls, spawns, owner, firstId, start) && start + |balls| < |spawns|
    requires IsNewBall(b, spawns[start + |balls|], owner, firstId + start + |balls|)
    ensures BallsAt(balls + [b], spawns, owner, firstId, start)
  {
  }

  /** `new Ball { Position, Velocity = (0, 0), IsAiming = true, Player,
      HoldingWeapon = "Bazooka", IsStatic = false }`. */
  method NewBall(position: Vec2, owner: Player, id: int) returns (b: Entity)
    ensures fresh(b) && IsNewBall(b, position, owner, id)
  {
    b := new Entity(id, BallKind);
    b.position := position;
    b.velocity := Vec2(0.0, 0.0);
    b.isAiming := true;
    b.player := owner;
    b.holdingWeapon := "Bazooka";
    b.isStatic := false;
  }

  /** What the session holds for a team once its balls exist: the team's
      balls are the entities from `start` on, each made at its spawn point,
      each with the team's kind of controller, and the first is the active
      ball whose controller is the player's. */
  ghost predicate TeamCreated(team: Team, entities: seq<Entity>, ballControllers: map<Entity, Controller>,
                              activeControllers: map<Player, Controller>, spawns: seq<Vec2>, firstId: int, start: int)
    reads team.player, team.player.ownedBalls
  {
    var balls := team.player.ownedBalls;
    && |balls| == team.numberOfBallz >= 1
    && 0 <= start && start + |balls| <= |entities| && entities[start..start + |balls|] == balls
    && BallsAt(balls, spawns, team.player, firstId, start)
    && (forall b :: b in balls ==> b in ballControllers && ballControllers[b] == ControllerFor(team, b))
    && team.player.activeBall == balls[0]
    && team.player in activeControllers && activeControllers[team.player] == ControllerFor(team, balls[0])
  }

  /** Later teams append entities, add controllers and set other players'
      controllers; none of that undoes an earlier team's state. */
  lemma TeamCreatedKept(team: Team, e1: seq<Entity>, bc1: map<Entity, Controller>, ac1: map<Player, Controller>,
                        e2: seq<Entity>, bc2: map<Entity, Controller>, ac2: map<Player, Controller>,
                        other: Player, c: Controller, spawns: seq<Vec2>, firstId: int, start: int)
    requires TeamCreated(team, e1, bc1, ac1, spawns, firstId, start)
    requires |e1| <= |e2| && e2[..|e1|] == e1
    requires forall b :: b in bc1 ==> b in bc2 && bc2[b] == bc1[b]
    requires ac2 == ac1[other := c] && other != team.player
    ensures TeamCreated(team, e2, bc2, ac2, spawns, firstId, start)
  {
    var n := |team.player.ownedBalls|;
    forall k | start <= k < start + n
      ensures e2[k] == e1[k]
    {
      assert e2[..|e1|][k] == e2[k];
    }
    assert e2[start..start + n] == e1[start..start + n];
  }

  /** `TeamCreatedKept` for the first n teams at once. */
  lemma TeamsCreatedKept(teams: seq<Team>, n: nat, e1: seq<Entity>, bc1: map<Entity, Controller>, ac1: map<Player, Controller>,
                         e2: seq<Entity>, bc2: map<Entity, Controller>, ac2: map<Player, Controller>,
                         other: Player, c: Controller, spawns: seq<Vec2>, firstId: int)
    requires n <= |teams|
    requires forall t {:trigger TeamCreated(teams[t], e1, bc1, ac1, spawns, firstId, Offset(teams, t))} :: 0 <= t < n ==>
      TeamCreated(teams[t], e1, bc1, ac1, spawns, firstId, Offset(teams, t))
    requires forall t :: 0 <= t < n ==> teams[t].player != other
    requires |e1| <= |e2| && e2[..|e1|] == e1
    requires forall b :: b in bc1 ==> b in bc2 && bc2[b] == bc1[b]
    requires ac2 == ac1[other := c]
    ensures forall t {:trigger TeamCreated(teams[t], e2, bc2, ac2, spawns, firstId, Offset(teams, t))} :: 0 <= t < n ==>
      TeamCreated(teams[t], e2, bc2, ac2, spawns, firstId, Offset(teams, t))
  {
    forall t {:trigger TeamCreated(teams[t], e2, bc2, ac2, spawns, firstId, Offset(teams, t))} | 0 <= t < n
      ensures TeamCreated(teams[t], e2, bc2, ac2, spawns, firstId, Offset(teams, t))
    {
      TeamCreatedKept(teams[t], e1, bc1, ac1, e2, bc2, ac2, other, c, spawns, firstId, Offset(teams, t));
    }
  }

  class Worms {
    var mapName: string
    var usePlayerTurns: bool
    var spawnPoints: seq<Vec2>

    /** The defaults are map "TestWorld2" without turns. */
    constructor (mapName: string, usePlayerTurns: bool)
      ensures this.mapName == mapName && this.usePlayerTurns == usePlayerTurns && spawnPoints == []
    {
      this.mapName := mapName;
      this.usePlayerTurns := usePlayerTurns;
      spawnPoints := [];
    }

    /** Appends the map's spawn points, column by column; points found by
        an earlier call stay, so a second call lists them twice. */
    method FindSpawnPoints(image: Texture, terrainScale: real)
      requires image.Valid()
      modifies this`spawnPoints
      ensures spawnPoints == old(spawnPoints) + SpawnPointsOf(image, terrainScale)
    {
      var w := image.width;
      var h := image.height;
      var pixels := image.pixels;
      var x := 0;
      while x < w
        invariant 0 <= x <= w
        invariant spawnPoints == old(spawnPoints) + MapPoints(image, terrainScale, x)
      {
        var y := 0;
        while y < h
          invariant 0 <= y <= h
          invariant spawnPoints == old(spawnPoints) + MapPoints(image, terrainScale, x) + ColumnPoints(image, terrainScale, x, y)
        {
          PixelIndexInBounds(w, h, x, y);
          assert ColumnPoints(image, terrainScale, x, y + 1) == ColumnPoints(image, terrainScale, x, y)
            + (if IsSpawnPixel(image, x, y) then [SpawnPointAt(x, y, h, terrainScale)] else []);
          if pixels[y * w + x] == SpawnPointColor {
            AppendAssociates(old(spawnPoints) + MapPoints(image, terrainScale, x), ColumnPoints(image, terrainScale, x, y),
                             [SpawnPointAt(x, y, h, terrainScale)]);
            spawnPoints := spawnPoints + [Vec2(x as real * terrainScale, (h - y) as real * terrainScale)];
            assert IsSpawnPixel(image, x, y);
            assert Vec2(x as real * terrainScale, (h - y) as real * terrainScale) == SpawnPointAt(x, y, h, terrainScale);
            assert ColumnPoints(image, terrainScale, x, y + 1) == ColumnPoints(image, terrainScale, x, y) + [SpawnPointAt(x, y, h, terrainScale)];
            assert spawnPoints == old(spawnPoints) + MapPoints(image, terrainScale, x) + ColumnPoints(image, terrainScale, x, y + 1);
          } else {
            assert !IsSpawnPixel(image, x, y);
            assert ColumnPoints(image, terrainScale, x, y + 1) == ColumnPoints(image, terrainScale, x, y);
          }
          y := y + 1;
        }
        AppendAssociates(old(spawnPoints), MapPoints(image, terrainScale, x), ColumnPoints(image, terrainScale, x, h));
        x := x + 1;
      }
    }

    /** Draws `count` spawn points (none for a negative count). Each ball
        gets up to 20 random draws to find an index not drawn yet, and then
        takes a random index whatever it is. The random generator is an
        arbitrary choice here. `draws[k]` lists the tries made for ball `k`
        and `fallbacks` holds the balls whose 20 tries all failed. */
    method SelectSpawnpoints(count: int) returns (points: seq<Vec2>, ghost spawns: seq<nat>, ghost draws: seq<seq<nat>>, ghost fallbacks: set<nat>)
      requires count > 0 ==> |spawnPoints| > 0
      ensures |points| == |spawns| == |draws| == (if count > 0 then count else 0)
      ensures forall k :: 0 <= k < |spawns| ==> spawns[k] < |spawnPoints| && points[k] == spawnPoints[spawns[k]]
      ensures forall k :: k in fallbacks ==> k < |spawns|
      ensures forall k :: 0 <= k < |draws| ==> forall d :: d in draws[k] ==> d < |spawnPoints|
      ensures forall k :: 0 <= k < |draws| && k in fallbacks ==>
        |draws[k]| == 20 && forall d :: d in draws[k] ==> d in spawns[..k]
      ensures forall k :: 0 <= k < |draws| && k !in fallbacks ==>
        && 0 < |draws[k]| <= 20 && draws[k][|draws[k]| - 1] == spawns[k]
        && forall d :: d in draws[k][..|draws[k]| - 1] ==> d in spawns[..k]
      ensures forall k :: 0 <= k < |spawns| && k !in fallbacks ==> spawns[k] !in spawns[..k]
    {
      var chosen: seq<nat> := [];
      draws := [];
      fallbacks := {};
      var i := 0;
      while i < count
        invariant 0 <= i <= (if count > 0 then count else 0) && |chosen| == |draws| == i
        invariant forall k :: 0 <= k < i ==> chosen[k] < |spawnPoints|
        invariant forall k :: k in fallbacks ==> k < i
        invariant forall k :: 0 <= k < i ==> forall d :: d in draws[k] ==> d < |spawnPoints|
        invariant forall k :: 0 <= k < i && k in fallbacks ==>
          |draws[k]| == 20 && forall d :: d in draws[k] ==> d in chosen[..k]
        invariant forall k :: 0 <= k < i && k !in fallbacks ==>
          && 0 < |draws[k]| <= 20 && draws[k][|draws[k]| - 1] == chosen[k]
          && forall d :: d in draws[k][..|draws[k]| - 1] ==> d in chosen[..k]
        invariant forall k :: 0 <= k < i && k !in fallbacks ==> chosen[k] !in chosen[..k]
      {
        ghost var before := chosen;
        var foundSpawn := false;
        var tries: seq<nat> := [];
        var j := 0;
        while j < 20
          invariant 0 <= j <= 20 && |tries| == j
          invariant !foundSpawn
          invariant chosen == before
          invariant forall d :: d in tries ==> d in chosen && d < |spawnPoints|
        {
          var spawnIndex :| 0 <= spawnIndex < |spawnPoints|;
          if spawnIndex !in chosen {
            assert (chosen + [spawnIndex])[..i] == chosen;
            assert (tries + [spawnIndex])[..j] == tries;
            chosen := chosen + [spawnIndex];
            tries := tries + [spawnIndex];
            foundSpawn := true;
            break;
          }
          tries := tries + [spawnIndex];
          j := j + 1;
        }
        if !foundSpawn {
          var spawnIndex :| 0 <= spawnIndex < |spawnPoints|;
          assert (chosen + [spawnIndex])[..i] == chosen;
          chosen := chosen + [spawnIndex];
          fallbacks := fallbacks + {i};
        }
        assert chosen[..i] == before;
        assert forall k :: 0 <= k <= i ==> chosen[..k] == before[..k];
        draws := draws + [tries];
        i := i + 1;
      }
      spawns := chosen;
      var candidates := spawnPoints;
      points := seq(|chosen|, k requires 0 <= k < |chosen| => candidates[chosen[k]]);
    }

    /** A client already has the map and its name; otherwise the map named
        "Worlds/" + MapName is loaded through `content`. */
    method ImplInitializeSession(settings: GameSettings, content: string -> Texture)
      modifies this`mapName, settings`mapName, settings`mapTexture
      ensures old(settings.mapTexture).None? ==>
        && settings.mapTexture == Some(content("Worlds/" + old(mapName)))
        && settings.mapName == old(mapName) && mapName == old(mapName)
      ensures old(settings.mapTexture).Some? ==>
        && mapName == old(settings.mapName)
        && settings.mapName == old(settings.mapName) && settings.mapTexture == old(settings.mapTexture)
    {
      if settings.mapTexture.None? {
        var mapTexture := content("Worlds/" + mapName);
        settings.mapName := mapName;
        settings.mapTexture := Some(mapTexture);
      } else {
        mapName := settings.mapName;
      }
    }

    /** One pass of the ball loop of `ImplStartSession`: the ball numbered
        after the session's entities is created at its spawn point, owned by
        the team's player, added to the entities and given its controller. */
    method AddTeamBall(session: Session, team: Team, spawns: seq<Vec2>, firstId: int) returns (playerBall: Entity)
      requires |session.entities| < |spawns|
      modifies session`entities, session`ballControllers, team.player`ownedBalls
      ensures fresh(playerBall)
      ensures IsNewBall(playerBall, spawns[|old(session.entities)|], team.player, firstId + |old(session.entities)|)
      ensures team.player.ownedBalls == old(team.player.ownedBalls) + [playerBall]
      ensures session.entities == old(session.entities) + [playerBall]
      ensures session.ballControllers == old(session.ballControllers)[playerBall := ControllerFor(team, playerBall)]
    {
      var k := |session.entities|;
      playerBall := NewBall(spawns[k], team.player, firstId + k);
      team.player.ownedBalls := team.player.ownedBalls + [playerBall];
      session.entities := session.entities + [playerBall];
      var controller;
      if team.controlledByAI {
        controller := AIControl(playerBall);
      } else {
        controller := UserControl(playerBall);
      }
      session.ballControllers := session.ballControllers[playerBall := controller];
    }

    /** The loop of `CreateTeamBallz`: adds `count` balls for the team, one
        after the other, each at the next spawn point. */
    method AddTeamBalls(session: Session, team: Team, spawns: seq<Vec2>, firstId: int, count: nat)
      requires team.player.ownedBalls == []
      requires |session.entities| + count <= |spawns|
      modifies session`entities, session`ballControllers, team.player`ownedBalls
      ensures |team.player.ownedBalls| == count
      ensures session.entities == old(session.entities) + team.player.ownedBalls
      ensures forall b :: b in team.player.ownedBalls ==> fresh(b)
      ensures BallsAt(team.player.ownedBalls, spawns, team.player, firstId, |old(session.entities)|)
      ensures forall b :: b in session.ballControllers <==> b in old(session.ballControllers) || b in team.player.ownedBalls
      ensures forall b :: b in team.player.ownedBalls ==> session.ballControllers[b] == ControllerFor(team, b)
      ensures forall b :: b in old(session.ballControllers) ==> session.ballControllers[b] == old(session.ballControllers[b])
    {
      var i := 0;
      while i < count
        invariant 0 <= i <= count && |team.player.ownedBalls| == i
        invariant session.entities == old(session.entities) + team.player.ownedBalls
        invariant forall b :: b in team.player.ownedBalls ==> fresh(b)
        invariant BallsAt(team.player.ownedBalls, spawns, team.player, firstId, |old(session.entities)|)
        invariant forall b :: b in session.ballControllers <==> b in old(session.ballControllers) || b in team.player.ownedBalls
        invariant forall b :: b in team.player.ownedBalls ==> session.ballControllers[b] == ControllerFor(team, b)
        invariant forall b :: b in old(session.ballControllers) ==> session.ballControllers[b] == old(session.ballControllers[b])
      {
        ghost var added := team.player.ownedBalls;
        var playerBall := AddTeamBall(session, team, spawns, firstId);
        AppendAssociates(old(session.entities), added, [playerBall]);
        BallsAtExtend(added, playerBall, spawns, team.player, firstId, |old(session.entities)|);
        i := i + 1;
      }
    }

    /** Registers the team's player and gives it its balls; the first ball
        becomes the active one, and its controller the player's. */
    method CreateTeamBallz(session: Session, team: Team, spawns: seq<Vec2>, firstId: int)
      requires team.player.ownedBalls == [] && team.numberOfBallz >= 1
      requires |session.entities| + team.numberOfBallz <= |spawns|
      modifies session`players, session`entities, session`ballControllers, session`activeControllers, team.player
      ensures session.players == old(session.players) + [team.player]
      ensures |team.player.ownedBalls| == team.numberOfBallz
      ensures session.entities == old(session.entities) + team.player.ownedBalls
      ensures forall b :: b in team.player.ownedBalls ==> fresh(b)
      ensures TeamCreated(team, session.entities, session.ballControllers, session.activeControllers, spawns, firstId, |old(session.entities)|)
      ensures forall b :: b in session.ballControllers <==> b in old(session.ballControllers) || b in team.player.ownedBalls
      ensures forall b :: b in old(session.ballControllers) ==> session.ballControllers[b] == old(session.ballControllers[b])
      ensures session.activeControllers == old(session.activeControllers)[team.player := ControllerFor(team, team.player.ownedBalls[0])]
    {
      session.players := session.players + [team.player];
      AddTeamBalls(session, team, spawns, firstId, team.numberOfBallz);
      team.player.activeBall := team.player.ownedBalls[0];
      session.activeControllers := session.activeControllers[team.player := session.ballControllers[team.player.activeBall]];
      assert session.entities[|old(session.entities)|..|old(session.entities)| + team.numberOfBallz] == team.player.ownedBalls;
    }

    /** Team i of the team loop of `ImplStartSession`: its player joins the
        session and its balls follow those of the teams before it. */
    method CreateTeamAt(session: Session, teams: seq<Team>, i: nat, spawns: seq<Vec2>, firstId: int)
      requires i < |teams|
      requires forall t :: 0 <= t < |teams| ==> teams[t].numberOfBallz >= 1
      requires forall t :: i <= t < |teams| ==> teams[t].player.ownedBalls == []
      requires forall t, u :: 0 <= t < u < |teams| ==> teams[t].player != teams[u].player
      requires TotalBalls(teams) <= |spawns|
      requires |session.players| == i && forall t :: 0 <= t < i ==> session.players[t] == teams[t].player
      requires |session.entities| == Offset(teams, i)
      requires forall t {:trigger TeamCreated(teams[t], session.entities, session.ballControllers, session.activeControllers, spawns, firstId, Offset(teams, t))} :: 0 <= t < i ==>
        TeamCreated(teams[t], session.entities, session.ballControllers, session.activeControllers, spawns, firstId, Offset(teams, t))
      requires forall b :: b in session.ballControllers <==> b in session.entities
      requires forall p :: p in session.activeControllers <==> p in session.players
      modifies session`players, session`entities, session`ballControllers, session`activeControllers, teams[i].player
      ensures session.players == old(session.players) + [teams[i].player]
      ensures |session.entities| == Offset(teams, i + 1)
      ensures session.entities[..|old(session.entities)|] == old(session.entities)
      ensures forall b :: b in session.entities[|old(session.entities)|..] ==> fresh(b)
      ensures forall t {:trigger TeamCreated(teams[t], session.entities, session.ballControllers, session.activeControllers, spawns, firstId, Offset(teams, t))} :: 0 <= t <= i ==>
        TeamCreated(teams[t], session.entities, session.ballControllers, session.activeControllers, spawns, firstId, Offset(teams, t))
      ensures forall b :: b in session.ballControllers <==> b in session.entities
      ensures forall p :: p in session.activeControllers <==> p in session.players
    {
      OffsetGrows(teams, i + 1, |teams|);
      ghost var e1 := session.entities;
      ghost var bc1 := session.ballControllers;
      ghost var ac1 := session.activeControllers;
      CreateTeamBallz(session, teams[i], spawns, firstId);
      assert forall t :: 0 <= t < i ==> teams[t].player != teams[i].player;
      assert forall t {:trigger TeamCreated(teams[t], e1, bc1, ac1, spawns, firstId, Offset(teams, t))} :: 0 <= t < i ==>
        old(TeamCreated(teams[t], e1, bc1, ac1, spawns, firstId, Offset(teams, t)));
      assert forall t {:trigger TeamCreated(teams[t], e1, bc1, ac1, spawns, firstId, Offset(teams, t))} :: 0 <= t < i ==>
        TeamCreated(teams[t], e1, bc1, ac1, spawns, firstId, Offset(teams, t));
      TeamsCreatedKept(teams, i, e1, bc1, ac1, session.entities, session.ballControllers, session.activeControllers,
                       teams[i].player, ControllerFor(teams[i], teams[i].player.ownedBalls[0]), spawns, firstId);
      assert |e1| == Offset(teams, i);
      assert TeamCreated(teams[i], session.entities, session.ballControllers, session.activeControllers, spawns, firstId, Offset(teams, i));
      forall t {:trigger TeamCreated(teams[t], session.entities, session.ballControllers, session.activeControllers, spawns, firstId, Offset(teams, t))} | 0 <= t <= i
        ensures TeamCreated(teams[t], session.entities, session.ballControllers, session.activeControllers, spawns, firstId, Offset(teams, t))
      {
        if t == i {
          assert teams[t] == teams[i];
        }
      }
    }

    /** The team loop of `ImplStartSession`: each team's player joins the
        session, then its balls are created, numbered across all teams. */
    method CreateTeams(session: Session, teams: seq<Team>, spawns: seq<Vec2>, firstId: int)
      requires session.entities == [] && session.players == []
      requires session.ballControllers == map[] && session.activeControllers == map[]
      requires forall t :: 0 <= t < |teams| ==> teams[t].numberOfBallz >= 1 && teams[t].player.ownedBalls == []
      requires forall t, u :: 0 <= t < u < |teams| ==> teams[t].player != teams[u].player
      requires TotalBalls(teams) <= |spawns|
      modifies session`players, session`entities, session`ballControllers, session`activeControllers
      modifies set t | t in teams :: t.player
      ensures |session.players| == |teams| && forall t :: 0 <= t < |teams| ==> session.players[t] == teams[t].player
      ensures |session.entities| == TotalBalls(teams)
      ensures forall b :: b in session.entities ==> fresh(b)
      ensures forall t {:trigger TeamCreated(teams[t], session.entities, session.ballControllers, session.activeControllers, spawns, firstId, Offset(teams, t))} :: 0 <= t < |teams| ==>
        TeamCreated(teams[t], session.entities, session.ballControllers, session.activeControllers, spawns, firstId, Offset(teams, t))
      ensures forall b :: b in session.ballControllers <==> b in session.entities
      ensures forall p :: p in session.activeControllers <==> p in session.players
    {
      var i := 0;
      while i < |teams|
        invariant 0 <= i <= |teams|
        invariant |session.players| == i && forall t :: 0 <= t < i ==> session.players[t] == teams[t].player
        invariant |session.entities| == Offset(teams, i)
        invariant forall b :: b in session.entities ==> fresh(b)
        invariant forall t :: i <= t < |teams| ==> teams[t].player.ownedBalls == []
        invariant forall t {:trigger TeamCreated(teams[t], session.entities, session.ballControllers, session.activeControllers, spawns, firstId, Offset(teams, t))} :: 0 <= t < i ==>
          TeamCreated(teams[t], session.entities, session.ballControllers, session.activeControllers, spawns, firstId, Offset(teams, t))
        invariant forall b :: b in session.ballControllers <==> b in session.entities
        invariant forall p :: p in session.activeControllers <==> p in session.players
      {
        ghost var e1 := session.entities;
        assert teams[i] in teams;
        CreateTeamAt(session, teams, i, spawns, firstId);
        assert session.entities == e1 + session.entities[|e1|..];
        i := i + 1;
      }
    }

    /** Creates the session of this game mode: the terrain made from the
        map, the map's spawn points, one drawn spawn point per ball, every
        team's player and balls, and the live world over the session's
        entities. `selected` are the drawn points, ball k standing on the
        k-th. */
    method ImplStartSession(settings: GameSettings, terrain: Terrain, firstId: int)
      returns (session: Session, world: GameWorld, ghost selected: seq<Vec2>)
      requires settings.mapTexture.Some? && settings.mapTexture.value.Valid()
      requires forall t :: 0 <= t < |settings.teams| ==>
        settings.teams[t].numberOfBallz >= 1 && settings.teams[t].player.ownedBalls == []
      requires forall t, u :: 0 <= t < u < |settings.teams| ==> settings.teams[t].player != settings.teams[u].player
      requires |settings.teams| > 0 ==> |spawnPoints| + |SpawnPointsOf(settings.mapTexture.value, terrain.scale)| > 0
      modifies this`spawnPoints, set t | t in settings.teams :: t.player
      ensures fresh(session) && fresh(world)
      ensures session.usePlayerTurns == usePlayerTurns && session.terrain == terrain
      ensures spawnPoints == old(spawnPoints) + SpawnPointsOf(settings.mapTexture.value, terrain.scale)
      ensures |selected| == TotalBalls(settings.teams) && forall p :: p in selected ==> p in spawnPoints
      ensures |session.players| == |settings.teams|
      ensures forall t :: 0 <= t < |settings.teams| ==> session.players[t] == settings.teams[t].player
      ensures |session.entities| == TotalBalls(settings.teams)
      ensures forall t {:trigger TeamCreated(settings.teams[t], session.entities, session.ballControllers, session.activeControllers, selected, firstId, Offset(settings.teams, t))} ::
        0 <= t < |settings.teams| ==>
        TeamCreated(settings.teams[t], session.entities, session.ballControllers, session.activeControllers,
                    selected, firstId, Offset(settings.teams, t))
      ensures forall b :: b in session.ballControllers <==> b in session.entities
      ensures forall p :: p in session.activeControllers <==> p in session.players
      ensures world.entities == session.entities && world.staticGeometry == terrain
    {
      var teams := settings.teams;
      var image := settings.mapTexture.value;
      session := new Session(usePlayerTurns, terrain);
      FindSpawnPoints(image, terrain.scale);
      var total := TotalBalls(teams);
      OffsetGrows(teams, 0, |teams|);
      ghost var spawnIndices, spawnDraws, fallbacks;
      var spawns;
      spawns, spawnIndices, spawnDraws, fallbacks := SelectSpawnpoints(total);
      selected := spawns;
      CreateTeams(session, teams, spawns, firstId);
      world := new GameWorld(session.entities, session.terrain);
    }
  }
}
