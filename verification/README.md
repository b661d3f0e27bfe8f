# Floor-plan editor: a Dafny model of the wall-editing state machine

The floor-plan editor is a browser canvas on which the user draws straight walls on a
20-pixel snapping grid, selects and drags them, deletes them, edits their thickness and
colour, zooms, and toggles the grid. All of its behaviour lives in the event handlers of
one component, `FloorPlanEditor`. This project models those handlers and the state they
change, and proves what they do to that state.

Layout, one module per concern:

- `wrappers.dfy` (`Wrappers`): the `Option` type (the pointer indicator, `Array.prototype.find`).
- `geometry.dfy` (`Geometry`): points, JavaScript's `Math.round`, and grid snapping.
- `walls.dfy` (`Walls`): the `Wall` record and the list updates that the handlers make with
  `filter`, `map`, `find` and spread-append, as functions on `seq<Wall>`.
- `measure.dfy` (`Measure`): wall length and the area estimate, including the summing loop.
- `editor_spec.dfy` (`EditorSpec`): the whole editor state as a value, the state invariant,
  and one pure transition per handler.
- `editor_properties.dfy` (`EditorProperties`): properties of event sequences, such as
  drawing a wall with two clicks, selecting and then deleting, dragging, and zooming back and forth.
- `floor_plan_editor.dfy` (`FloorPlanEditor`): class `Editor`, whose fields are the
  component's state and whose methods are the handlers. They update the fields step by step,
  and each one is proved to reach the state that the matching `EditorSpec` transition gives.

The state invariant `EditorSpec.Inv` says the following. A wall is being drawn exactly when
the preview `currentWall` holds four coordinates. When no wall is being drawn, the preview is
empty. Drawing happens only with the wall tool. Every preview coordinate is a multiple of 20.
The zoom stays in [0.1, 3]. Every wall has the four coordinates that the length and drag code
read. The constructor establishes the invariant and every handler preserves it.

Behaviour of the code that the model keeps as written:

- The second click of the wall tool stores `currentWall ++ [x, y]`, which is six
  coordinates. The length code reads only the first four. So a wall's reported length is
  that of the segment from the first click to the last mouse-move position, and the finishing
  click does not count. With no mouse move between the clicks, the length is 0
  (`EditorProperties.TwoClicksWithoutMove`, `EditorProperties.ClickMoveClick`).
- Dragging writes four coordinates. The first drag of a freshly drawn wall therefore drops
  its trailing pair. If several walls share the clicked id, all of them are selected and the
  drag moves them all onto the first one's segment (`EditorProperties.DragInPlace`).
- `handleDeleteWall` with nothing selected switches to the delete tool rather than deleting.

Arithmetic is on Dafny's exact `real`s. `Math.round(v)` is `Floor(v + 1/2)`, so ties go up.
When a wall is dragged, the source computes its new end as `start + length * (cos a, sin a)`
with `a = atan2(dy, dx)`. Over the reals that equals `start + (dx, dy)`, and the model uses
that form. `Math.sqrt` is a parameter `sqrt: real -> real`. The pointer position, the
`wallId` of the clicked shape and the id of a new wall are method parameters.

## Model

| member | source | states |
|---|---|---|
| `Geometry.Round` | src/components/FloorPlanEditor.tsx:111-112 | `Math.round` gives the integer within (v - 1/2, v + 1/2], so ties go up |
| `Geometry.SnapCoord` | src/components/FloorPlanEditor.tsx:108-116 | a snapped coordinate is a multiple of 20 and lies in (v - 10, v + 10] |
| `Geometry.SnapCoordUnique` | src/components/FloorPlanEditor.tsx:108-116 | that grid line is the only multiple of 20 in (v - 10, v + 10], so snapping means "nearest grid line, ties up" |
| `Geometry.SnapCoordFixesGridLines` | src/components/FloorPlanEditor.tsx:108-116 | a coordinate already on the grid does not move |
| `Geometry.SnapCoordIdempotent` | src/components/FloorPlanEditor.tsx:108-116 | snapping twice equals snapping once |
| `Geometry.SnapCoordTieGoesUp` | src/components/FloorPlanEditor.tsx:111-112 | a pointer exactly half way between grid lines snaps to the upper line |
| `Geometry.SnapToGrid` | src/components/FloorPlanEditor.tsx:108-116 | both snapped coordinates are on the grid and within 10 pixels of the pointer (ties up) |
| `Geometry.SnapToGridUnique` | src/components/FloorPlanEditor.tsx:108-116 | the snapped point is the unique grid point in that window on both axes |
| `Geometry.SnapToGridIdempotent` | src/components/FloorPlanEditor.tsx:108-116 | snapping an already snapped point changes nothing |
| `Walls.SetProperty` | src/components/FloorPlanEditor.tsx:310 | `{ ...wall, [property]: value }` gives the named field the value and keeps every other field |
| `Walls.Keep` | src/components/FloorPlanEditor.tsx:187 | `filter` keeps exactly the walls that pass the test and never grows the list |
| `Walls.KeepIsSubsequence` | src/components/FloorPlanEditor.tsx:187 | `filter` keeps the survivors in their original relative order |
| `Walls.KeepSplits` | src/components/FloorPlanEditor.tsx:257-261 | a filter and its complement together account for every wall exactly once |
| `Walls.KeepAll` | src/components/FloorPlanEditor.tsx:187 | a filter that every wall passes returns the list unchanged |
| `Walls.FindFirst` | src/components/FloorPlanEditor.tsx:156 | `find` gives nothing exactly when no wall passes; otherwise it gives the first wall that passes |
| `Walls.FindById` | src/components/FloorPlanEditor.tsx:156 | finding by id gives nothing exactly when no wall has the id; otherwise a wall of the list with that id, the first one |
| `Walls.FindSelected` | src/components/FloorPlanEditor.tsx:208 | finding the selected wall gives nothing exactly when none is selected; otherwise a selected wall of the list, the first one |
| `Walls.RemoveId` | src/components/FloorPlanEditor.tsx:187 | the survivors of a delete click are exactly the walls whose id differs from the clicked one |
| `Walls.SelectedWalls` | src/components/FloorPlanEditor.tsx:257 | the selection is exactly the selected walls of the list |
| `Walls.RemoveSelected` | src/components/FloorPlanEditor.tsx:261 | the survivors of deleting the selection are exactly the unselected walls |
| `Walls.NewWall` | src/components/FloorPlanEditor.tsx:132-138 | the finished wall has the new id, is not selected, has thickness 10 and the default colour, and its points are the preview followed by the click position |
| `Walls.SelectOnly` | src/components/FloorPlanEditor.tsx:165-171 | a select click sets each wall's `selected` to "its id is the clicked id" and keeps length, order and every other field |
| `Walls.DeselectAll` | src/components/FloorPlanEditor.tsx:176-179 | an empty-canvas click clears every `selected` and keeps length, order and every other field |
| `Walls.UpdateProperty` | src/components/FloorPlanEditor.tsx:306-313 | only walls with the given id change, and only in the named field; the length is kept |
| `Walls.MoveSelected` | src/components/FloorPlanEditor.tsx:221-236 | only selected walls get new coordinates; every other field and every unselected wall stay as they were |
| `Walls.RemoveAbsentId` | src/components/FloorPlanEditor.tsx:181-190 | deleting an id that no wall has changes nothing |
| `Walls.RemoveIdExactly` | src/components/FloorPlanEditor.tsx:181-190 | a delete click removes exactly the walls with the clicked id, keeps the rest in order, and is idempotent |
| `Walls.RemoveSelectedExactly` | src/components/FloorPlanEditor.tsx:256-262 | deleting the selection removes exactly the selected walls and keeps the rest in order |
| `Walls.RemoveSelectedLeavesNoneSelected` | src/components/FloorPlanEditor.tsx:259-262 | after deleting the selection no wall is selected |
| `Walls.SelectOnlySelectsOne` | src/components/FloorPlanEditor.tsx:165-171 | with unique ids a select click leaves exactly one wall selected, or none when the id is absent |
| `Walls.DeselectAllSelectsNone` | src/components/FloorPlanEditor.tsx:176-179 | after an empty-canvas click no wall is selected |
| `Walls.SelectThenDeleteIsDeleteById` | src/components/FloorPlanEditor.tsx:165-187 | removing the selection made by a select click equals deleting by that id and deselecting the rest |
| `Walls.FindSelectedAfterSelect` | src/components/FloorPlanEditor.tsx:208 | after a select click, the first selected wall is the first wall with the clicked id |
| `Walls.UpdateAbsentId` | src/components/FloorPlanEditor.tsx:306-313 | updating an id that no wall has changes nothing |
| `Walls.UpdatePropertyIdempotent` | src/components/FloorPlanEditor.tsx:306-313 | applying the same non-id property update twice equals applying it once |
| `Walls.UpdatePropertyWellFormed` | src/components/FloorPlanEditor.tsx:306-313 | an update that leaves at least four coordinates keeps every wall well formed |
| `Measure.Max` | src/components/FloorPlanEditor.tsx:545 | `Math.max` is an upper bound of both arguments and equals one of them |
| `Measure.WallLength` | src/components/FloorPlanEditor.tsx:548-553 | the length is 0 for fewer than four coordinates and never negative |
| `Measure.SegmentLength` | src/components/FloorPlanEditor.tsx:550-552 | the metre length of a segment is never negative |
| `Measure.WallLengthReadsFirstSegment` | src/components/FloorPlanEditor.tsx:548-553 | coordinates after the fourth do not change the length |
| `Measure.WallLengthTranslationInvariant` | src/components/FloorPlanEditor.tsx:550-552 | moving both endpoints by the same offset keeps the length |
| `Measure.SumLengths` | src/components/FloorPlanEditor.tsx:537-541 | the summed length is never negative |
| `Measure.TotalArea` | src/components/FloorPlanEditor.tsx:532-546 | the area is 0 for fewer than three walls; otherwise it is at least 12.5 per wall and at least (total length / 4)^2 |
| `Measure.SquareMonotone` | src/components/FloorPlanEditor.tsx:544 | squaring a quarter of the total length, as `Math.pow(x, 2)` does, never decreases as the non-negative total grows |
| `Measure.TotalAreaGrowsWithWalls` | src/components/FloorPlanEditor.tsx:532-546 | adding a wall never lowers the area estimate |
| `Measure.CalculateTotalArea` | src/components/FloorPlanEditor.tsx:532-546 | the `forEach` loop computes exactly the area estimate, at least 12.5 per wall from three walls on |
| `EditorSpec.Init` | src/components/FloorPlanEditor.tsx:26-39 | the initial state has no walls, the select tool, the grid on, zoom 1, no drawing or dragging, an empty preview, no pointer indicator and a zero drag offset, and it satisfies the invariant |
| `EditorSpec.Inv` | src/components/FloorPlanEditor.tsx:122-150 | in a valid state the preview is empty or, while drawing, holds exactly four coordinates, all on the grid |
| `EditorSpec.Truthy` | src/components/FloorPlanEditor.tsx:152-154 | a clicked shape's `wallId` counts as a click on a wall exactly when it is present and not the empty string |
| `EditorSpec.ClampZoom` | src/components/FloorPlanEditor.tsx:302 | the clamped zoom lies in [0.1, 3] and equals the input when the input already lies there |
| `EditorSpec.GrabOffset` | src/components/FloorPlanEditor.tsx:159-162 | the recorded drag offset is the one that, subtracted from the grab point, gives back the wall's start |
| `EditorSpec.DraggedPoints` | src/components/FloorPlanEditor.tsx:210-231 | a dragged wall starts at pointer minus drag offset and keeps its direction vector |
| `EditorSpec.WallClick` | src/components/FloorPlanEditor.tsx:122-150 | first click: `currentWall = [x, y, x, y]`, walls unchanged. Second click: exactly one wall appended, the one `Walls.NewWall` gives for the new id, the preview and the click; earlier walls unchanged; drawing reset |
| `EditorSpec.SelectClick` | src/components/FloorPlanEditor.tsx:151-180 | a wall click selects exactly the walls with its id and starts a drag with offset pointer minus wall start; an empty click deselects all |
| `EditorSpec.DeleteClick` | src/components/FloorPlanEditor.tsx:181-191 | a wall click deletes the walls with its id; an empty click changes nothing |
| `EditorSpec.MouseDown` | src/components/FloorPlanEditor.tsx:119-192 | a mouse-down keeps the invariant, shows the snapped pointer, never changes tool, zoom or grid, and is the wall, select or delete branch for the current tool, applied at the snapped pointer |
| `EditorSpec.MouseUp` | src/components/FloorPlanEditor.tsx:195-198 | mouse-up clears `isDragging`, zeroes `dragOffset` and changes nothing else |
| `EditorSpec.MouseMove` | src/components/FloorPlanEditor.tsx:201-239 | while drawing, preview indices 0..1 are kept and 2..3 become the snapped pointer; while dragging, the selected walls move; otherwise walls are unchanged |
| `EditorSpec.ToolChange` | src/components/FloorPlanEditor.tsx:242-254 | switching tool ends drawing and empties the preview; nothing else changes |
| `EditorSpec.DeleteWall` | src/components/FloorPlanEditor.tsx:256-268 | with a selection, exactly the selected walls go and the tool stays; with none, walls stay and the tool becomes delete; no selected wall remains either way |
| `EditorSpec.ToggleGrid` | src/components/FloorPlanEditor.tsx:270-273 | the grid flag flips and nothing else changes |
| `EditorSpec.Zoom` | src/components/FloorPlanEditor.tsx:299-304 | the new zoom is the old one times 1.2 (in) or divided by 1.2 (out), clamped to [0.1, 3]; zooming in never lowers it and zooming out never raises it; nothing else changes |
| `EditorSpec.UpdateWallProperty` | src/components/FloorPlanEditor.tsx:306-313 | a property update changes only the wall list, and only as `Walls.UpdateProperty` states |
| `EditorProperties.ToggleGridTwice` | src/components/FloorPlanEditor.tsx:270-271 | toggling the grid twice is the identity |
| `EditorProperties.ZoomInThenOut` | src/components/FloorPlanEditor.tsx:299-304 | zooming in and then out restores the state when the first step was not clamped |
| `EditorProperties.ZoomOutThenIn` | src/components/FloorPlanEditor.tsx:299-304 | zooming out and then in restores the state when the first step was not clamped |
| `EditorProperties.ZoomSaturates` | src/components/FloorPlanEditor.tsx:302 | zooming past a bound from that bound changes nothing |
| `EditorProperties.TwoClicksWithoutMove` | src/components/FloorPlanEditor.tsx:122-146 | two clicks with no move append the wall `[a, a, b]`, end drawing, and give that wall length 0 |
| `EditorProperties.ClickMoveClick` | src/components/FloorPlanEditor.tsx:122-146 | click, move, click appends the wall `[a, b, c]`, all on grid; its length is that of a to b |
| `EditorProperties.KeepKeepsUniqueIds` | src/components/FloorPlanEditor.tsx:187 | filtering never makes two walls share an id |
| `EditorProperties.MouseDownKeepsUniqueIds` | src/components/FloorPlanEditor.tsx:132-143 | a mouse-down keeps ids unique when the new wall's id is not already taken |
| `EditorProperties.SelectThenDelete` | src/components/FloorPlanEditor.tsx:256-262 | a select click on an existing id followed by delete removes every wall with that id, as a delete click would, and leaves the rest deselected |
| `EditorProperties.DeleteWithoutSelection` | src/components/FloorPlanEditor.tsx:264-267 | delete with nothing selected keeps every wall and switches to the delete tool |
| `EditorProperties.DragKeepsLength` | src/components/FloorPlanEditor.tsx:210-231 | dragging a wall does not change its length |
| `EditorProperties.PressOnWall` | src/components/FloorPlanEditor.tsx:151-171 | a select click on an existing wall selects exactly its id, starts dragging, and sets the offset from the wall's start to the snapped pointer |
| `EditorProperties.DragFromGrabPoint` | src/components/FloorPlanEditor.tsx:206-236 | dragging with the offset recorded at the current grid point reproduces the wall's first four coordinates |
| `EditorProperties.MoveFromGrabPoint` | src/components/FloorPlanEditor.tsx:206-236 | while dragging, a move to any pointer that snaps to the grab point sets every selected wall to the grabbed wall's first segment |
| `EditorProperties.DragInPlace` | src/components/FloorPlanEditor.tsx:151-236 | pressing on a wall and then moving to any pointer that snaps to the same grid point sets every wall with the clicked id to the first segment of the first such wall: that wall returns to its place with only its first four coordinates, and other walls sharing the id are moved onto that segment |
| `FloorPlanEditor.Editor.constructor` | src/components/FloorPlanEditor.tsx:26-39 | a new editor is in the initial state and satisfies the invariant |
| `FloorPlanEditor.Editor.SnapToGrid` | src/components/FloorPlanEditor.tsx:108-116 | returns the snapped pointer and stores it as the pointer indicator |
| `FloorPlanEditor.Editor.HandleStageMouseDown` | src/components/FloorPlanEditor.tsx:119-192 | updates the fields to exactly `EditorSpec.MouseDown` of the old state and keeps the invariant |
| `FloorPlanEditor.Editor.WallToolMouseDown` | src/components/FloorPlanEditor.tsx:122-150 | updates the fields to exactly `EditorSpec.WallClick` of the old state |
| `FloorPlanEditor.Editor.SelectToolMouseDown` | src/components/FloorPlanEditor.tsx:151-180 | updates the fields to exactly `EditorSpec.SelectClick` of the old state |
| `FloorPlanEditor.Editor.DeleteToolMouseDown` | src/components/FloorPlanEditor.tsx:181-191 | updates the fields to exactly `EditorSpec.DeleteClick` of the old state |
| `FloorPlanEditor.Editor.HandleStageMouseUp` | src/components/FloorPlanEditor.tsx:195-198 | updates the fields to exactly `EditorSpec.MouseUp` of the old state |
| `FloorPlanEditor.Editor.HandleStageMouseMove` | src/components/FloorPlanEditor.tsx:201-239 | updates the fields to exactly `EditorSpec.MouseMove` of the old state |
| `FloorPlanEditor.Editor.HandleToolChange` | src/components/FloorPlanEditor.tsx:242-254 | updates the fields to exactly `EditorSpec.ToolChange` of the old state |
| `FloorPlanEditor.Editor.HandleDeleteWall` | src/components/FloorPlanEditor.tsx:256-268 | updates the fields to exactly `EditorSpec.DeleteWall` of the old state |
| `FloorPlanEditor.Editor.HandleToggleGrid` | src/components/FloorPlanEditor.tsx:270-273 | updates the fields to exactly `EditorSpec.ToggleGrid` of the old state |
| `FloorPlanEditor.Editor.HandleZoom` | src/components/FloorPlanEditor.tsx:299-304 | updates the fields to exactly `EditorSpec.Zoom` of the old state |
| `FloorPlanEditor.Editor.UpdateWallProperty` | src/components/FloorPlanEditor.tsx:306-313 | updates the fields to exactly `EditorSpec.UpdateWallProperty` of the old state |

## Left out

- `EditorSpec.UpdateWallProperty` requires that a new `points` value has at least four coordinates. The source accepts any list. `calculateWallLength` guards against short lists and returns 0 (FloorPlanEditor.tsx:549), but three readers do not: the drag (FloorPlanEditor.tsx:212-231), the select click's drag offset (FloorPlanEditor.tsx:160-161) and the rendering of walls (FloorPlanEditor.tsx:424-452). On a short list they read past the end and JavaScript produces `NaN`, which the real-number model cannot represent. The only caller passes `thickness` and `color`.
- `FloorPlanEditor.Editor.UpdateWallProperty` has the same restriction on `points`, for the same reason.
- `Measure.WallLength` does not state the exact value. `Math.sqrt` is a parameter here, and only the fewer-than-four-coordinates guard and the sign are claimed.
- `Measure.TotalArea` states only the zero case and the lower bounds. The exact estimate depends on `Math.sqrt` and `Math.pow` over floating point.
- `EditorSpec.DraggedPoints` uses the real-number meaning of the drag code's `Math.sqrt`, `Math.atan2`, `Math.cos` and `Math.sin`. It leaves out their floating-point rounding.
- All arithmetic is exact. Floating-point rounding of `/ 20`, `* 1.2` and `/ 1.2` is not modelled.
- `handleWheel` is not modelled. It reads and moves the canvas library's stage object, which is foreign code.
- `handleExportJSON` is not modelled: it does file download through Blob, object URL and DOM anchor, and reads the clock.
- Also not modelled: the welcome timer and the resize listener (`useEffect`), `toast` notifications, `generateGrid`, and all rendering.
- The `scale` field is not modelled. It is constant 1 and only export and the properties panel read it.
- New wall ids come from `Date.now()` in the source. Here the id is a parameter. Uniqueness is proved only under the assumption that the given id is fresh.
- React batches state updates, and handlers read the state of the last render. The model applies each event to the state that the previous event left.
- The invariant does not say that wall coordinates stay on the grid, because a property update may set arbitrary coordinates.
- PropertiesPanel.tsx, Toolbar.tsx, ToolsPanel.tsx and StatusBar.tsx are presentational and are not part of this model.
