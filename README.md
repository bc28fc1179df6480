# StickBlast board logic in Dafny

StickBlast is a puzzle game played on a grid of dots. The dots are joined by
edges, and each unit square of the grid is a cell. A piece is a small shape
made of sticks. The player drags a piece onto the board. When every sensor
dot of the piece sits on a board dot, and none of the board edges under the
piece's sticks is already filled, the piece is placed. Its sticks fill those
edges. A cell whose four edges are all filled is completed. The game is
lost when no piece in the tray fits anywhere on the board.

This project models the integer and board-state core of that game:

- `common.dfy` (`Common`): the option type, the 32-bit `Int32`, positions and
  integer offsets, and a distinctness predicate.
- `tags.dfy` (`Tags`): the `"a,b"` edge tags, C#-style int formatting,
  `Split(',')`, and `Cell.ReverseTag`.
- `edge_key.dfy` (`EdgeKeys`): the unordered `EdgeKey` value, with its
  equality, hash and string form.
- `cell_fill.dfy` (`CellFill`): a cell's edge flags and counter as a value.
  It holds the specification of one `FillEdges` call and of `UpdateState`,
  with the invariants they keep or break.
- `board.dfy` (`Board`): the `Dot`, `Edge`, `Cell`, `DotSensor` and
  `ShapeEdge` classes. Their methods update fields in place:
  - `Cell.Start` registers the cell with its dots and builds its edges;
  - `Cell.FillEdges` tags the sticks, scans for a conflict, then fills;
  - `Cell.UpdateState` recounts the counter.
- `placement.dfy` (`Placement`): the placement check shared by `Draggable`
  and `FailCheckUnit`. The check gathers every sensor's snap target, then
  refuses a consecutive pair whose edge is filled, in either tag order.
- `draggable.dfy` (`Pieces`): the `Draggable` piece.
  - `Start` builds one stick between each two consecutive sensors.
  - `IsCandidatePlaceAvailable` is the placement check.
  - `Drop` gathers targets and cells, builds consecutive edge keys, fills
    every uncompleted cell until one refuses, then settles or goes back to
    the start.
- `fail_check.dfy` (`FailCheck`): `FailCheckUnit` and the
  `FailCheckManager.IsFailed` search over pieces and candidate dots.
- `grid.dfy` (`Grid`): the integer layout of `GridGenerator.Generate`:
  - dot, line and cell counts;
  - row-major numbering and ids;
  - lattice positions, in half units.

Board queries that the game answers elsewhere are parameters of the model:
- `GridManager.GetEdge` is a `Lookup` function from a dot and a tag to "no
  edge" or an edge with its `filled` flag.
- `GridManager.CandidateDots` is a sequence of dots.
- `Dot.GetDotWithOffset` is an `OffsetDot` function.

## Model

| member | source | states |
|---|---|---|
| EdgeKeys.NewEdgeKey | Assets/Scripts/EdgeKey.cs:9-21 | the key stores the smaller id first and holds exactly the two given ids |
| EdgeKeys.KeyIsUnordered | Assets/Scripts/EdgeKey.cs:9-21 | the key of (a, b) equals the key of (b, a) |
| EdgeKeys.KeysEqualIffSamePair | Assets/Scripts/EdgeKey.cs:9-26 | two keys are Equals exactly when they were built from the same unordered pair of ids |
| EdgeKeys.EdgeKey.Equals | Assets/Scripts/EdgeKey.cs:23-26 | Equals holds exactly when both ids agree |
| EdgeKeys.EqualsIsEquivalence | Assets/Scripts/EdgeKey.cs:23-26 | Equals is reflexive, symmetric and transitive |
| EdgeKeys.EdgeKey.EqualsObject | Assets/Scripts/EdgeKey.cs:28-31 | Equals(object) holds only for a boxed EdgeKey equal to this one; null and other types give false |
| EdgeKeys.EdgeKey.GetHashCode | Assets/Scripts/EdgeKey.cs:33-39 | the hash is Id1 * 397 XOR Id2, with 32-bit wrap-around |
| EdgeKeys.EqualKeysEqualHashes | Assets/Scripts/EdgeKey.cs:23-39 | keys that are Equals have the same hash code |
| EdgeKeys.EdgeKey.ToString | Assets/Scripts/EdgeKey.cs:41 | splitting the string on commas gives back the decimal forms of Id1 and Id2 |
| EdgeKeys.ToStringInjective | Assets/Scripts/EdgeKey.cs:41 | two keys have the same string exactly when they are the same key |
| EdgeKeys.ToStringSmallerFirst | Assets/Scripts/EdgeKey.cs:9-41 | a new key prints as the edge tag of its smaller id then its larger id |
| Tags.ReverseTag | Assets/Scripts/Cell.cs:109-118 | a two-part tag comes back with its parts swapped; any other string comes back unchanged |
| Tags.ReverseTagOfTag | Assets/Scripts/Cell.cs:109-118 | reversing the tag of a to b gives the tag of b to a |
| Tags.ReverseTagInvolution | Assets/Scripts/Cell.cs:109-118 | reversing a two-part tag twice gives it back |
| Tags.TagInjective | Assets/Scripts/Edge.cs:27 | two edge tags are equal exactly when both ids are equal |
| Board.Dot.constructor | Assets/Scripts/Dot.cs:24-27 | a new dot has an id, a position, and empty cell and edge lists |
| Board.Edge.constructor | Assets/Scripts/Edge.cs:11-29 | the edge keeps its dots in ascending id order, is tagged "d1,d2", starts unfilled, and is appended once to the edge list of each end (twice when both ends are the same dot) |
| Board.Edge.TryFill | Assets/Scripts/Edge.cs:32-51 | the edge becomes filled exactly when each given dot's id is the id of one of its ends; a filled edge stays filled |
| Board.DotSensor.SetSnapPosition | Assets/Scripts/DotSensor.cs:17-25 | GetSnapPosition returns the position last set |
| Board.DotSensor.SpecifySnapTarget | Assets/Scripts/DotSensor.cs:27-32 | the sensor records the target, and SnapTargetAvailable says whether the target is non-null |
| Board.DotSensor.SetColliderState | Assets/Scripts/DotSensor.cs:34-37 | the collider flag takes the given state |
| Board.ShapeEdge.constructor | Assets/Scripts/ShapeEdge.cs:10-14 | a stick joins two sensors and starts with no edge tag |
| Board.Cell.Start | Assets/Scripts/Cell.cs:20-28 | each corner dot lists the cell once per occurrence and gains exactly the new edges that touch it; the edges are well built and blank; the counter equals the number of edges |
| Board.Cell.Register | Assets/Scripts/Cell.cs:22-25 | each corner dot's cell list grows by this cell, once per occurrence of the dot among the corners, and edge lists are untouched |
| Board.Cell.DefineEdges | Assets/Scripts/Cell.cs:30-57 | every corner is joined to its first same-x and first same-y partner; no pair of dots is joined twice; every edge is blank; the counter is the edge count |
| Board.Cell.JoinCorners | Assets/Scripts/Cell.cs:34-53 | after the corner loop each corner is joined to the partners found for it, and the edges stay well built and blank |
| Board.Cell.JoinIfNew | Assets/Scripts/Cell.cs:37-52 | the partner found (if any) is joined to the dot afterwards, the edge list only grows, and no duplicate edge is added |
| Board.Cell.AddEdge | Assets/Scripts/Cell.cs:41 | exactly one fresh blank edge joining the two dots is appended and listed at both dots |
| Board.WellBuiltShape | Assets/Scripts/Cell.cs:34-56 | a cell's edges are distinct, join two different corners on a common row or column, and no later edge joins an earlier edge's pair |
| Board.FirstMatch | Assets/Scripts/Cell.cs:36 | Find returns a different corner on the same column (or row), and returns none only when there is no such corner |
| Board.Cell.FillEdges | Assets/Scripts/Cell.cs:59-107 | the sticks are tagged from their sensors' snap dots, and the cell's new state, result and blast request are CellFill.Fill of its old state under the targeted and stick masks |
| Board.TagSticks | Assets/Scripts/Cell.cs:61-67 | each stick whose two sensors both have a snap dot takes those dots' tag; every other stick keeps its tag |
| Board.TagStick | Assets/Scripts/Cell.cs:63-66 | one stick takes its snap dots' tag when both sensors have one, and otherwise keeps its tag |
| Board.TaggingSettles | Assets/Scripts/Cell.cs:61-67 | after tagging, the sticks' tags are the tags tagging produced, and tagging again changes nothing |
| Board.Cell.FillCell | Assets/Scripts/Cell.cs:69-106 | the scan-and-fill part of FillEdges moves the cell to CellFill.Fill of its old state |
| Board.Cell.CollectTargets | Assets/Scripts/Cell.cs:69-83 | reports a conflict exactly when a targeted edge is already filled; otherwise returns the targeted edge positions in list order |
| Board.TargetMask | Assets/Scripts/Cell.cs:74-75 | an edge is targeted exactly when both its dots are target dots and its tag, or the reversed tag, is a target edge key |
| Board.Cell.FillTargets | Assets/Scripts/Cell.cs:85-96 | fills the targets up to and including the first one with no stick, attaches sticks before that one, lowers the counter by the number filled, and succeeds only when no stick was missing |
| Board.Cell.FillOne | Assets/Scripts/Cell.cs:87-95 | fills one edge and lowers the counter by one; the edge gets a stick exactly when some stick carries its tag in either order |
| Board.FindTag | Assets/Scripts/Cell.cs:90 | finds a stick exactly when one carries the tag or its reverse, and the index it returns is such a stick |
| Board.Cell.UpdateState | Assets/Scripts/Cell.cs:130-134 | the counter becomes the number of edges with no stick, and completed holds exactly when the counter is zero |
| CellFill.Fill | Assets/Scripts/Cell.cs:69-106 | one FillEdges call on a well-formed state gives a well-formed state with the same number of edges |
| CellFill.FillConflictChangesNothing | Assets/Scripts/Cell.cs:72-83 | if a targeted edge is already filled, the call fails, changes nothing and asks for no blast |
| CellFill.FillSuccess | Assets/Scripts/Cell.cs:85-106 | the call succeeds exactly when there is no conflict and every targeted edge has a stick; on success exactly the targeted edges are newly filled and stuck, the counter falls by their number, and the cell completes and blasts exactly when the counter reaches zero |
| CellFill.FillStopsWithoutRollback | Assets/Scripts/Cell.cs:85-94 | a call that meets a targeted edge with no stick fails and asks for no blast, but leaves that edge filled without a stick and the counter lowered; untargeted edges are untouched |
| CellFill.FillKeepsCounted | Assets/Scripts/Cell.cs:85-96 | the counter plus the number of filled edges stays equal to the number of edges, whatever the outcome |
| CellFill.FillKeepsInvariant | Assets/Scripts/Cell.cs:85-106 | on a conflict or a success, a consistent cell stays consistent: the counter is right, completed matches a zero counter, and filled equals stuck |
| CellFill.MissingStickBreaksInvariant | Assets/Scripts/Cell.cs:88-94 | a one-edge cell filled with no stick ends with counter zero and is not completed, which breaks that consistency |
| CellFill.Recount | Assets/Scripts/Cell.cs:130-134 | the flags are kept, the counter is the number of unstuck edges, and completed holds exactly when the counter is zero |
| CellFill.RecountKeepsConsistentCell | Assets/Scripts/Cell.cs:130-134 | recounting a consistent cell changes nothing |
| CellFill.RecountIdempotent | Assets/Scripts/Cell.cs:130-134 | recounting twice is the same as recounting once |
| CellFill.Indices | Assets/Scripts/Cell.cs:72-83 | the positions collected are exactly the targeted ones, each once |
| CellFill.IndicesSorted | Assets/Scripts/Cell.cs:70-81 | the collected positions are in ascending edge-list order |
| Placement.Check | Assets/Scripts/Draggable.cs:156-183 | the check answers true exactly when every sensor has a snap target and no consecutive pair of targets has a filled edge under either tag order |
| Placement.Gather | Assets/Scripts/Draggable.cs:161-166 | gathering succeeds exactly when every sensor has a snap target, and then returns the targets in sensor order |
| Placement.PairsFree | Assets/Scripts/Draggable.cs:169-182 | true exactly when no consecutive pair from the given position on is blocked by a filled edge |
| Placement.MissingTargetRefuses | Assets/Scripts/Draggable.cs:161-166 | one sensor with no snap target makes the placement fail |
| Placement.MissingTargetIgnoresEdges | Assets/Scripts/Draggable.cs:161-166 | with a sensor unsnapped, the answer is false whatever the board's edges |
| Placement.FilledPairRefuses | Assets/Scripts/Draggable.cs:169-182 | a filled edge between two consecutive targets makes the placement fail |
| Placement.SingleSensorFits | Assets/Scripts/FailCheckUnit.cs:30-43 | a one-sensor piece on a dot always fits, since there is no pair to check |
| Pieces.Draggable.Start | Assets/Scripts/Draggable.cs:48-55 | appends one fresh stick per consecutive pair of sensors, joining those two sensors, and keeps the sticks already there |
| Pieces.Draggable.IsCandidatePlaceAvailable | Assets/Scripts/Draggable.cs:156-183 | the answer is the placement check on the sensors' current snap targets |
| Pieces.Draggable.BackToStart | Assets/Scripts/Draggable.cs:315-326 | the ghost is hidden (through UnhighlightSensors); the piece's sticks, its collider and every field of its sensors are left as they were, so the tags the sticks would take are too |
| Pieces.Draggable.GatherTargets | Assets/Scripts/Draggable.cs:242-257 | succeeds exactly when every sensor has a snap target, and then returns those dots in order and the union of their cells |
| Pieces.CellsOfUnion | Assets/Scripts/Draggable.cs:242-257 | the gathered cells are distinct, and are exactly the cells of the snapped dots |
| Pieces.UnionWithMembers | Assets/Scripts/Draggable.cs:256 | UnionWith keeps every cell already present, adds every new cell, adds nothing else, and keeps the set duplicate-free |
| Pieces.Draggable.EdgeTargets | Assets/Scripts/Draggable.cs:260-263 | the keys are exactly the "id,id" tags of consecutive snap targets |
| Pieces.ConsecutiveKeysMembers | Assets/Scripts/Draggable.cs:260-263 | every consecutive pair contributes its key, and every key comes from a consecutive pair |
| Pieces.TryCell | Assets/Scripts/Draggable.cs:268-275 | a completed cell is skipped: it succeeds and stays as it was |
| Pieces.TryFillCell | Assets/Scripts/Draggable.cs:268-275 | one cell of the drop loop reaches the state and answer of its specification, with its edge list unchanged |
| Pieces.FillStep | Assets/Scripts/Draggable.cs:271 | filling one cell of the drop leaves every other target cell's state unchanged |
| Pieces.FirstRefusal | Assets/Scripts/Draggable.cs:266-276 | the loop stops at the first refusing cell; every cell before it succeeded |
| Pieces.Draggable.FillCells | Assets/Scripts/Draggable.cs:266-276 | the cells up to and including the first refusal take their filled states, later cells are untouched, and the result is true exactly when no cell refused |
| Pieces.Draggable.DisableSensors | Assets/Scripts/Draggable.cs:301-304 | every sensor's collider is switched off, and each sensor keeps its snap position, snap dot and availability flag |
| Pieces.Draggable.Settle | Assets/Scripts/Draggable.cs:300-306 | the piece's collider and every sensor collider are off and the ghost is hidden; the sensors keep their snap dots, and the sticks and the tags they would take are unchanged |
| Pieces.Draggable.Place | Assets/Scripts/Draggable.cs:260-306 | the target cells end in their fill states up to the first refusal; a full success disables all colliders and keeps the sensors' snap dots; a refusal leaves the piece's collider and every sensor field as they were; the tags the sticks would take are those given before the drop |
| Pieces.Draggable.Conclude | Assets/Scripts/Draggable.cs:271-306 | a filled piece settles (all colliders off); a refused one goes back with its collider and sensors as they were; either way the ghost is hidden and the sensors keep their snap dots |
| Pieces.Draggable.Drop | Assets/Scripts/Draggable.cs:227-313 | with no ghost or an unsnapped sensor nothing is placed, and the target cells, their edges and the sticks are all unchanged; otherwise the target cells are filled in order up to the first refusal; the piece is placed exactly when no cell refused, and a placed piece has every collider off; a piece that is not placed keeps its collider and its sensors exactly as they were; the sensors' snap dots and the tags the sticks would take never change |
| Pieces.Draggable.DropShowing | Assets/Scripts/Draggable.cs:235-313 | Drop once the ghost is showing: an unsnapped sensor changes no cell, edge, stick, collider or sensor; otherwise the cells are filled up to the first refusal, as Drop states |
| FailCheck.FailCheckUnit.constructor | Assets/Scripts/FailCheckUnit.cs:10-15 | a unit holds its id and its sensors, in the given order |
| FailCheck.FailCheckUnit.IsCandidatePlaceAvailable | Assets/Scripts/FailCheckUnit.cs:17-44 | the answer is the placement check on the unit's current snap targets |
| FailCheck.PlaceAt | Assets/Scripts/FailCheckManager.cs:36-46 | the unit can be laid at a dot exactly when every sensor offset lands on a dot, and then each sensor lands on that dot |
| FailCheck.FailCheckUnit.MoveTo | Assets/Scripts/FailCheckManager.cs:36-46 | the move succeeds exactly when every offset lands, and then the sensors' snap targets are the landing dots; in every case the sensors up to the first missing offset snap to their landing dots and report a target, the later ones keep their target and flag, no snap position or collider changes, and a sensor whose flag agreed with its target still agrees |
| FailCheck.FailCheckUnit.TryAt | Assets/Scripts/FailCheckManager.cs:36-52 | the answer is whether the unit fits at that dot: every offset lands and the placement check passes; the sensors end as MoveTo leaves them |
| FailCheck.MovesAsWritten | Assets/Scripts/FailCheckManager.cs:37-46 | the loop as written keeps one target per sensor |
| FailCheck.MovesKeep | Assets/Scripts/FailCheckManager.cs:37-46 | sensors before the loop position, and zero-offset sensors, keep their target |
| FailCheck.MovesStop | Assets/Scripts/FailCheckManager.cs:40-44 | after a missing offset dot, the loop moves no later sensor |
| FailCheck.MovesPlace | Assets/Scripts/FailCheckManager.cs:38-46 | when every later offset lands, each non-zero sensor moves to its landing dot |
| FailCheck.RepositionAsWritten | Assets/Scripts/FailCheckManager.cs:36-46 | the reposition as written keeps one target per sensor |
| FailCheck.StaleAfterMissing | Assets/Scripts/FailCheckManager.cs:40-44 | a sensor at or after a missing offset keeps the dot of the previous try |
| FailCheck.ZeroOffsetStays | Assets/Scripts/FailCheckManager.cs:37 | a non-anchor sensor with a zero offset is never moved |
| FailCheck.AgreesWhenAllFound | Assets/Scripts/FailCheckManager.cs:36-46 | when every offset lands, the reposition as written places the sensors exactly as PlaceAt does |
| FailCheck.ScanAsWritten | Assets/Scripts/FailCheckManager.cs:32-53 | with no candidate dots the scan as written finds nothing |
| FailCheck.StaleSensorAccepts | Assets/Scripts/FailCheckManager.cs:32-53 | a two-sensor unit fits at neither candidate dot, yet the scan as written accepts it when each move sets the snap targets at once |
| FailCheck.ScanLagged | Assets/Scripts/FailCheckManager.cs:32-53 | with the game's timing, each try's check reads the targets of the previous position: with no candidates it finds nothing, and targets that already pass the check are accepted at the first candidate |
| FailCheck.StaleSensorAcceptsLagged | Assets/Scripts/FailCheckManager.cs:32-53 | with the game's timing, a two-sensor unit fits at none of three candidate dots, yet the scan accepts it at the third; with only the first two it refuses |
| FailCheck.LaggedRefusesSecond | Assets/Scripts/FailCheckManager.cs:32-53 | with the first check seeing the missing target and the second the filled d1-e stick, the lagged scan over d1 and d2 refuses |
| FailCheck.LaggedAcceptsThird | Assets/Scripts/FailCheckManager.cs:32-53 | once the sensors sit on d2 and e with d2-e free, the lagged scan over d1, d2 and d3 accepts at the third try |
| FailCheck.StaleMoves | Assets/Scripts/FailCheckManager.cs:36-46 | moved onto a dot whose offset dot exists, both sensors move; moved onto a dot without one, only the anchor moves and the second sensor keeps the old dot |
| FailCheck.Reached | Assets/Scripts/FailCheckManager.cs:38-46 | counts the sensors, from the anchor on, that land on a dot: every one before the count lands and the one at the count does not |
| FailCheck.FindUnit | Assets/Scripts/FailCheckManager.cs:31 | finds a unit with the piece's id exactly when one exists, and returns such a unit |
| FailCheck.FailCheckManager.constructor | Assets/Scripts/FailCheckManager.cs:13-17 | the manager starts with the units and has not yet signalled a failure |
| FailCheck.FailCheckManager.TryCandidates | Assets/Scripts/FailCheckManager.cs:32-53 | the scan of candidate dots for one piece succeeds exactly when the piece's unit fits at some candidate |
| FailCheck.FailCheckManager.IsFailed | Assets/Scripts/FailCheckManager.cs:24-71 | the result is failed exactly when no piece in the tray fits at any candidate dot, and onFail fires exactly when failed |
| Grid.PlaceLines | Assets/Scripts/GridGenerator.cs:41-54 | adds a flat line except at the last column and an upright line except on the last row; every line joins two lattice dots |
| Grid.PlaceRow | Assets/Scripts/GridGenerator.cs:34-56 | one row adds w+1 dots in order, continuing the numbering, and its lines |
| Grid.PlaceDots | Assets/Scripts/GridGenerator.cs:24-61 | (w+1)(h+1) dots numbered from 1 in row-major order from the top-left corner, all on the lattice, with w(h+1) flat lines and (w+1)h upright lines, each joining two lattice dots |
| Grid.PlaceCells | Assets/Scripts/GridGenerator.cs:64-78 | w*h cells numbered from 1 in row-major order, each centred in a lattice square |
| Grid.Generate | Assets/Scripts/GridGenerator.cs:17-85 | the dots, lines and cells together, with the counts, numbering and positions above |
| Grid.DotsApart | Assets/Scripts/GridGenerator.cs:32-39 | a later dot is below, or right of, an earlier one, so no two dots share a position |
| Grid.CellsApart | Assets/Scripts/GridGenerator.cs:69-77 | a later cell is below, or right of, an earlier one, so no two cells share a position |
| Grid.DotAt | Assets/Scripts/GridGenerator.cs:28-39 | the dot at row i, column j has id i(w+1)+j+1 and sits at (2j-w, h-2i) half units |
| Grid.CellAt | Assets/Scripts/GridGenerator.cs:66-77 | the cell at row i, column j has id iw+j+1 and sits at (2j-w+1, h-2i-1) half units |
| Grid.LatticePoint | Assets/Scripts/GridGenerator.cs:26-38 | the dot of row i, column j lies on the lattice |
| Grid.FlatJoins | Assets/Scripts/GridGenerator.cs:41-46 | a flat line sits halfway between two neighbouring dots of a row |
| Grid.UprightJoins | Assets/Scripts/GridGenerator.cs:48-54 | an upright line sits halfway between two neighbouring dots of a column |
| Grid.CellCentred | Assets/Scripts/GridGenerator.cs:64-75 | the cell of row i, column j sits at the centre of its lattice square |

## Left out

- Rendering, animation, sprites, sorting orders, colours, audio, the tray UI
  and `print` logging are outside the model, because they do not affect board state.
- Floating-point world positions are left out. Grid positions are kept as
  integers in half units (`GridGenerator`'s `x - width/2` spacing doubled),
  and `Draggable`'s float recentring of the piece after a drop is not modelled.
- Physics, input and the dots' trigger callbacks (`Dot.OnTriggerStay2D`,
  `Dot.OnTriggerExit2D`) are not modelled as code. A sensor's snap target is
  whatever `SpecifySnapTarget` last set.
- FailCheck.FailCheckUnit.MoveTo: the coroutine `yield` and the physics step
  are left out. Moving a sensor is taken to set its snap target at once,
  while the game updates snap targets only on the trigger callbacks of the
  next physics step. The corrected search keeps this synchronous reading.
  For the search as written, FailCheck.ScanLagged models the game's timing
  and FailCheck.ScanAsWritten the synchronous one.
- `GridManager.IsTimeToBlast` and the blast itself are outside the model.
  FillEdges reports a `blast` flag where it would call it.
- `Dot.ResetState` is visual, and the dot loop of `Cell.UpdateState` that
  calls it is left out.
- Pieces.Draggable.BackToStart: `DotSensor.cs` declares no `ResetSensor`,
  although `Draggable.cs` calls it at line 324. Its effect is unknown. The
  model assumes it leaves every sensor field unchanged, including
  `snapTarget` and `SnapTargetAvailable`.
- `DotSensor.cs` declares no `localCoordinate`, although
  `FailCheckManager.cs` reads it at line 37. The model gives `DotSensor` a
  constant `localCoordinate` offset.
- `GridManager.cs` declares no `GetEdge`, `CandidateDots` or
  `IsTimeToBlast`, and `Dot.cs` declares no `GetDotWithOffset`.
  `GetEdge` is the `Lookup` parameter, `CandidateDots` a sequence of dots,
  and `GetDotWithOffset` the `OffsetDot` parameter. Their bodies are not
  part of this model.
- `GridManager.cs` keeps its `dots` list private, although
  `FailCheckManager.Start` reads it at line 16. The search never uses that
  copy, so it is left out.
- `Debug.LogError` in `Cell.ReverseTag`, for a tag that does not split into
  two parts, is left out. Tags.ReverseTag returns such a tag unchanged, as
  the game does after logging.
- An edge's `stickSprite` is modelled as the bool `stickAttached`.
- `Cell.DefineEdges` passes the cell as a third argument that the
  constructor in `Edge.cs` does not take. The model keeps it as a ghost owner.
- `ShapeEdge.cs` declares no `currentEdgeTag` and no sprite, although
  `Cell.FillEdges` and `Draggable.Drop` use both. The model gives
  `ShapeEdge` a `currentEdgeTag` field that starts empty.
- `ShapeData.cs` declares no `id`, although `FailCheckManager` reads
  `piece.data.id`. The model stores it as `Draggable.dataId`.
- `HashSet` iteration order (`edgesToFill`, `cellTargets`) is taken as
  insertion order. Which cell refuses first can depend on it in the game.
- Pieces.Draggable.Drop: requires the target cells to be distinct objects
  (`Apart`), and its sensors to carry a snap target exactly when
  `SnapTargetAvailable` is set. The game keeps both by construction.
- Pieces.Draggable.GatherTargets: requires the same sensor consistency as Drop.
- FailCheck.FailCheckUnit.MoveTo: requires the unit's prefab shape, with the
  anchor first at offset zero, every other sensor at a non-zero offset, and
  the sensors distinct.
- FailCheck.FailCheckManager.IsFailed: requires every unit to have that shape.
  It also requires every tray piece to have a unit when there are candidate
  dots, because the game would throw a null reference there.
- Unity's `!sensor.snapTarget` is taken as a null check.
- `int.ToString()` is taken in the invariant culture, with a leading minus
  sign and no digit grouping.
- Grid.Generate: the `int` counter `index` is unbounded in the model.
  32-bit wrap-around would need a grid of more than two billion dots.
- Board.Cell.FillEdges: a fill that stops at a missing stick leaves the
  cell's counter and `completed` out of step (CellFill.MissingStickBreaksInvariant).
  This is modelled as written and not corrected, because the game's prefabs
  are meant to supply a stick for every targeted edge.

## Findings

| source | as written | input that shows it | evidently intended | confidence | as-written member | corrected member |
|---|---|---|---|---|---|---|
| Assets/Scripts/FailCheckManager.cs:38-52 | when an offset has no dot, the move loop breaks, but the placement check still runs on sensors left on the previous candidate's dots | a unit with sensors at offsets (0,0) and (1,0) starts off the grid and is tried at d1, d2 and d3. The right neighbour e of d1 is joined to d1 by a filled edge; d2 and d3 have no right neighbour; the d2–e edge is unfilled. In the game each check reads the targets the trigger callbacks set during the wait before it, so it sees the previous try's position. The check at d1 refuses the start, the check at d2 refuses d1–e, and the check at d3 reads the stale d2–e and accepts | a candidate where some offset has no dot is not a fit | medium, not executed | FailCheck.StaleSensorAcceptsLagged | FailCheck.FailCheckManager.IsFailed |
