/**
 * The editor's state and its event handlers as pure transitions from the old state to the
 * new one. Each handler of the floor-plan editor component is one function here; the class
 * in module FloorPlanEditor performs the same updates in place and is proved against them.
 */
module EditorSpec {
  import opened Wrappers
  import opened Geometry
  import opened Walls
  import Measure

  datatype Tool = SelectTool | WallTool | DeleteTool

  /** `FloorPlanState` together with the component's other pieces of state. */
  datatype EditorState = EditorState(
    walls: seq<Wall>,
    tool: Tool,
    gridVisible: bool,
    zoom: real,
    isDrawing: bool,
    currentWall: seq<real>,
    mousePosition: Option<Point>,
    isDragging: bool,
    dragOffset: Point)

  const MinZoom: real := 0.1
  const MaxZoom: real := 3.0
  /** Factor of one zoom-button press. */
  const ZoomFactor: real := 1.2

  /**
   * What every reachable state satisfies: a wall is being drawn exactly when the preview
   * holds two snapped endpoints, only in wall mode; the zoom is within its bounds; every
   * wall has the four coordinates that the length and drag code read.
   */
  predicate Inv(s: EditorState): (ok: bool)
    ensures ok ==> s.currentWall == [] || (s.isDrawing && |s.currentWall| == 4)
    ensures ok && s.isDrawing ==>
              |s.currentWall| == 4 &&
              OnGrid(s.currentWall[0]) && OnGrid(s.currentWall[1]) &&
              OnGrid(s.currentWall[2]) && OnGrid(s.currentWall[3])
  {
    var ok :=
    && (s.isDrawing <==> |s.currentWall| == 4)
    && (!s.isDrawing ==> s.currentWall == [])
    && (s.isDrawing ==> s.tool == WallTool)
    && (forall c :: c in s.currentWall ==> OnGrid(c))
    && MinZoom <= s.zoom <= MaxZoom
    && WellFormed(s.walls);
    ok
  }

  /** The state the component starts in. */
  function Init(): (s: EditorState)
    ensures Inv(s)
    ensures s.walls == [] && s.tool == SelectTool && s.gridVisible && !s.isDrawing && !s.isDragging
    ensures s.zoom == 1.0 && s.currentWall == [] && s.mousePosition == None && s.dragOffset == Point(0.0, 0.0)
  {
    EditorState([], SelectTool, true, 1.0, false, [], None, false, Point(0.0, 0.0))
  }

  /** JavaScript truthiness of the clicked shape's `wallId` attribute: absent and "" are false. */
  predicate Truthy(target: Option<string>): (b: bool)
    ensures b <==> target.Some? && |target.value| > 0
  {
    target.Some? && target.value != ""
  }

  /** `Math.max(0.1, Math.min(3, v))`. */
  function ClampZoom(v: real): (z: real)
    ensures MinZoom <= z <= MaxZoom
    ensures MinZoom <= v <= MaxZoom ==> z == v
    ensures v < MinZoom ==> z == MinZoom
    ensures v > MaxZoom ==> z == MaxZoom
  {
    Measure.Max(MinZoom, if MaxZoom <= v then MaxZoom else v)
  }

  /**
   * The drag offset a select click records: from the wall's start point to the grid point where
   * it is grabbed, so that subtracting it from the grab point gives the start back.
   */
  function GrabOffset(pos: Point, points: seq<real>): (offset: Point)
    requires |points| >= 2
    ensures pos.x - offset.x == points[0] && pos.y - offset.y == points[1]
  {
    Point(pos.x - points[0], pos.y - points[1])
  }

  /**
   * The new coordinates of a dragged wall: its start goes to the pointer minus the drag offset
   * and its end keeps the same offset from the start. The source computes the end as
   * `start + length * (cos a, sin a)` with `a = atan2(dy, dx)`, which over the reals is `start + (dx, dy)`.
   */
  function DraggedPoints(points: seq<real>, pos: Point, offset: Point): (r: seq<real>)
    requires |points| >= 4
    ensures |r| == 4
    ensures r[0] == pos.x - offset.x && r[1] == pos.y - offset.y
    ensures r[2] - r[0] == points[2] - points[0] && r[3] - r[1] == points[3] - points[1]
  {
    var startX := pos.x - offset.x;
    var startY := pos.y - offset.y;
    [startX, startY, startX + (points[2] - points[0]), startY + (points[3] - points[1])]
  }

  /**
   * The wall-tool branch of `handleStageMouseDown` at snapped position `pos`: the first click
   * starts a zero-length preview at `pos`; the second appends exactly one wall after the
   * unchanged earlier walls and ends drawing.
   */
  function WallClick(s: EditorState, pos: Point, newId: string): (r: EditorState)
    requires Inv(s) && s.tool == WallTool
    requires OnGrid(pos.x) && OnGrid(pos.y)
    ensures Inv(r)
    ensures r.tool == s.tool && r.zoom == s.zoom && r.gridVisible == s.gridVisible && r.mousePosition == s.mousePosition
    ensures r.isDragging == s.isDragging && r.dragOffset == s.dragOffset
    ensures r.isDrawing == !s.isDrawing
    ensures !s.isDrawing ==> r.walls == s.walls && r.currentWall == [pos.x, pos.y, pos.x, pos.y]
    ensures s.isDrawing ==>
      && r.currentWall == []
      && |r.walls| == |s.walls| + 1 && r.walls[..|s.walls|] == s.walls
      && r.walls[|s.walls|].id == newId
      && r.walls[|s.walls|].points == s.currentWall + [pos.x, pos.y]
      && r.walls[|s.walls|].thickness == DefaultThickness
      && !r.walls[|s.walls|].selected
      && r.walls[|s.walls|] == NewWall(newId, s.currentWall, pos)
  {
    if !s.isDrawing then
      s.(isDrawing := true, currentWall := [pos.x, pos.y, pos.x, pos.y])
    else
      var walls := s.walls + [NewWall(newId, s.currentWall, pos)];
      assert walls[..|s.walls|] == s.walls;
      assert WellFormed(walls) by {
        forall w | w in walls ensures |w.points| >= 4 {
          if w != walls[|s.walls|] {
            assert w in s.walls;
          }
        }
      }
      s.(walls := walls, isDrawing := false, currentWall := [])
  }

  /**
   * The select-tool branch of `handleStageMouseDown` at snapped position `pos`: clicking a wall
   * makes the walls with its id the only selected ones and, when such a wall exists, starts a
   * drag whose offset is `pos` minus the first such wall's start; clicking empty canvas deselects
   * every wall. Only the `selected` flags of the walls change.
   */
  function SelectClick(s: EditorState, pos: Point, target: Option<string>): (r: EditorState)
    requires Inv(s) && s.tool == SelectTool
    ensures Inv(r)
    ensures r.tool == s.tool && r.zoom == s.zoom && r.gridVisible == s.gridVisible && r.mousePosition == s.mousePosition
    ensures r.isDrawing == s.isDrawing && r.currentWall == s.currentWall
    ensures r.walls == if Truthy(target) then SelectOnly(s.walls, target.value) else DeselectAll(s.walls)
    ensures r.isDragging == (s.isDragging || (Truthy(target) && HasId(s.walls, target.value)))
    ensures Truthy(target) && HasId(s.walls, target.value) ==>
      r.dragOffset == GrabOffset(pos, FindById(s.walls, target.value).value.points)
    ensures !(Truthy(target) && HasId(s.walls, target.value)) ==> r.dragOffset == s.dragOffset
  {
    if Truthy(target) then
      var walls := SelectOnly(s.walls, target.value);
      KeepsWellFormed(s.walls, walls);
      match FindById(s.walls, target.value)
      case Some(w) =>
        s.(isDragging := true, dragOffset := GrabOffset(pos, w.points), walls := walls)
      case None =>
        s.(walls := walls)
    else
      var walls := DeselectAll(s.walls);
      KeepsWellFormed(s.walls, walls);
      s.(walls := walls)
  }

  /** The delete-tool branch of `handleStageMouseDown`: clicking a wall deletes every wall with its id. */
  function DeleteClick(s: EditorState, target: Option<string>): (r: EditorState)
    requires Inv(s) && s.tool == DeleteTool
    ensures Inv(r)
    ensures r.walls == if Truthy(target) then RemoveId(s.walls, target.value) else s.walls
    ensures r.(walls := s.walls) == s
  {
    if Truthy(target) then s.(walls := RemoveId(s.walls, target.value)) else s
  }

  /**
   * `handleStageMouseDown`: snap the pointer, show it as the pointer indicator, then act by
   * tool; `target` is the clicked shape's `wallId` and `newId` the id a finished wall gets.
   */
  function MouseDown(s: EditorState, pointer: Point, target: Option<string>, newId: string): (r: EditorState)
    requires Inv(s)
    ensures Inv(r)
    ensures r.mousePosition == Some(SnapToGrid(pointer))
    ensures r.tool == s.tool && r.zoom == s.zoom && r.gridVisible == s.gridVisible
    ensures s.tool != WallTool ==> r.isDrawing == s.isDrawing && r.currentWall == s.currentWall
    ensures s.tool != SelectTool ==> r.isDragging == s.isDragging && r.dragOffset == s.dragOffset
    ensures var m := s.(mousePosition := Some(SnapToGrid(pointer)));
      r == match s.tool
        case WallTool => WallClick(m, SnapToGrid(pointer), newId)
        case SelectTool => SelectClick(m, SnapToGrid(pointer), target)
        case DeleteTool => DeleteClick(m, target)
  {
    var pos := SnapToGrid(pointer);
    var moved := s.(mousePosition := Some(pos));
    match s.tool
    case WallTool => WallClick(moved, pos, newId)
    case SelectTool => SelectClick(moved, pos, target)
    case DeleteTool => DeleteClick(moved, target)
  }

  /** `handleStageMouseUp`: dragging stops and the offset is reset. */
  function MouseUp(s: EditorState): (r: EditorState)
    requires Inv(s)
    ensures Inv(r)
    ensures !r.isDragging && r.dragOffset == Point(0.0, 0.0)
    ensures r.(isDragging := s.isDragging, dragOffset := s.dragOffset) == s
  {
    s.(isDragging := false, dragOffset := Point(0.0, 0.0))
  }

  /**
   * `handleStageMouseMove`: while drawing, the preview's end follows the snapped pointer; while
   * dragging in select mode, every selected wall takes the dragged coordinates of the first selected wall.
   */
  function MouseMove(s: EditorState, pointer: Point): (r: EditorState)
    requires Inv(s)
    ensures Inv(r)
    ensures r.mousePosition == Some(SnapToGrid(pointer))
    ensures r.tool == s.tool && r.zoom == s.zoom && r.gridVisible == s.gridVisible
    ensures r.isDrawing == s.isDrawing && r.isDragging == s.isDragging && r.dragOffset == s.dragOffset
    ensures s.isDrawing ==>
      && r.walls == s.walls
      && r.currentWall[0] == s.currentWall[0] && r.currentWall[1] == s.currentWall[1]
      && r.currentWall[2] == SnapToGrid(pointer).x && r.currentWall[3] == SnapToGrid(pointer).y
    ensures !s.isDrawing ==> r.currentWall == s.currentWall
    ensures !(s.isDragging && s.tool == SelectTool) ==> r.walls == s.walls
    ensures s.isDragging && s.tool == SelectTool ==>
      r.walls == match FindSelected(s.walls)
        case None => s.walls
        case Some(w) => MoveSelected(s.walls, DraggedPoints(w.points, SnapToGrid(pointer), s.dragOffset))
  {
    var pos := SnapToGrid(pointer);
    var moved := s.(mousePosition := Some(pos));
    if s.isDrawing && s.tool == WallTool then
      moved.(currentWall := [s.currentWall[0], s.currentWall[1], pos.x, pos.y])
    else if s.isDragging && s.tool == SelectTool then
      match FindSelected(s.walls)
      case None => moved
      case Some(w) =>
        var walls := MoveSelected(s.walls, DraggedPoints(w.points, pos, s.dragOffset));
        KeepsWellFormed(s.walls, walls);
        moved.(walls := walls)
    else moved
  }

  /** `handleToolChange`: switch tool and abandon any wall being drawn. */
  function ToolChange(s: EditorState, tool: Tool): (r: EditorState)
    requires Inv(s)
    ensures Inv(r)
    ensures r.tool == tool && !r.isDrawing && r.currentWall == []
    ensures r.(tool := s.tool, isDrawing := s.isDrawing, currentWall := s.currentWall) == s
  {
    s.(tool := tool, isDrawing := false, currentWall := [])
  }

  /**
   * `handleDeleteWall`: with a selection, delete exactly the selected walls and keep the tool;
   * with none, switch to the delete tool. Either way no selected wall remains.
   */
  function DeleteWall(s: EditorState): (r: EditorState)
    requires Inv(s)
    ensures Inv(r)
    ensures SelectedWalls(r.walls) == []
    ensures |SelectedWalls(s.walls)| > 0 ==> r == s.(walls := RemoveSelected(s.walls))
    ensures |SelectedWalls(s.walls)| == 0 ==> r.walls == s.walls && r == ToolChange(s, DeleteTool)
  {
    var selectedCount := |SelectedWalls(s.walls)|;
    if selectedCount > 0 then
      RemoveSelectedLeavesNoneSelected(s.walls);
      s.(walls := RemoveSelected(s.walls))
    else
      assert SelectedWalls(s.walls) == [];
      ToolChange(s, DeleteTool)
  }

  /** `handleToggleGrid`. */
  function ToggleGrid(s: EditorState): (r: EditorState)
    requires Inv(s)
    ensures Inv(r)
    ensures r.gridVisible == !s.gridVisible
    ensures r.(gridVisible := s.gridVisible) == s
  {
    s.(gridVisible := !s.gridVisible)
  }

  /** `handleZoom`: one step in or out, clamped to [0.1, 3]. */
  function Zoom(s: EditorState, zoomIn: bool): (r: EditorState)
    requires Inv(s)
    ensures Inv(r)
    ensures zoomIn ==> r.zoom >= s.zoom
    ensures !zoomIn ==> r.zoom <= s.zoom
    ensures r.zoom == ClampZoom(if zoomIn then s.zoom * ZoomFactor else s.zoom / ZoomFactor)
    ensures r.(zoom := s.zoom) == s
  {
    var newZoom := if zoomIn then s.zoom * ZoomFactor else s.zoom / ZoomFactor;
    s.(zoom := ClampZoom(newZoom))
  }

  /** `updateWallProperty`: set one field of the walls with the given id. */
  function UpdateWallProperty(s: EditorState, wallId: string, p: WallProperty): (r: EditorState)
    requires Inv(s)
    requires p.Points? ==> |p.points| >= 4
    ensures Inv(r)
    ensures r == s.(walls := UpdateProperty(s.walls, wallId, p))
  {
    UpdatePropertyWellFormed(s.walls, wallId, p);
    s.(walls := UpdateProperty(s.walls, wallId, p))
  }
}
