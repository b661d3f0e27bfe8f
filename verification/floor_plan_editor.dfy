/**
 * The editor component's mutable state and its event handlers, updating that state field by
 * field as the component's setters do. Each handler is proved to produce the state that the
 * matching transition of module EditorSpec describes, so everything proved there holds here.
 */
module FloorPlanEditor {
  import opened Wrappers
  import opened Geometry
  import opened Walls
  import opened EditorSpec

  class Editor {
    var walls: seq<Wall>
    var tool: Tool
    var gridVisible: bool
    var zoom: real
    var isDrawing: bool
    var currentWall: seq<real>
    var mousePosition: Option<Point>
    var isDragging: bool
    var dragOffset: Point

    /** The editor's fields as one value. */
    function State(): EditorState
      reads this
    {
      EditorState(walls, tool, gridVisible, zoom, isDrawing, currentWall, mousePosition, isDragging, dragOffset)
    }

    ghost predicate Valid()
      reads this
    {
      Inv(State())
    }

    /** The component's initial state. */
    constructor()
      ensures Valid() && State() == Init()
    {
      walls := [];
      tool := SelectTool;
      gridVisible := true;
      zoom := 1.0;
      isDrawing := false;
      currentWall := [];
      mousePosition := None;
      isDragging := false;
      dragOffset := Point(0.0, 0.0);
    }

    /** `snapToGrid`: snap the pointer and show it as the pointer indicator. */
    method SnapToGrid(pointer: Point) returns (pos: Point)
      modifies this`mousePosition
      ensures pos == Geometry.SnapToGrid(pointer)
      ensures mousePosition == Some(pos)
    {
      pos := Point(SnapCoord(pointer.x), SnapCoord(pointer.y));
      mousePosition := Some(pos);
    }

    /** `handleStageMouseDown`. */
    method HandleStageMouseDown(pointer: Point, target: Option<string>, newId: string)
      requires Valid()
      modifies this
      ensures Valid()
      ensures State() == MouseDown(old(State()), pointer, target, newId)
    {
      ghost var before := State();
      var pos := SnapToGrid(pointer);
      assert State() == before.(mousePosition := Some(pos));
      if tool == WallTool {
        WallToolMouseDown(pos, newId);
      } else if tool == SelectTool {
        SelectToolMouseDown(pos, target);
      } else {
        DeleteToolMouseDown(target);
      }
    }

    /** The wall-tool branch of `handleStageMouseDown`: start a wall, or finish the one being drawn. */
    method WallToolMouseDown(pos: Point, newId: string)
      requires Valid() && tool == WallTool && OnGrid(pos.x) && OnGrid(pos.y)
      modifies this
      ensures Valid()
      ensures State() == WallClick(old(State()), pos, newId)
    {
      if !isDrawing {
        isDrawing := true;
        currentWall := [pos.x, pos.y, pos.x, pos.y];
      } else {
        var newWall := NewWall(newId, currentWall, pos);
        walls := walls + [newWall];
        isDrawing := false;
        currentWall := [];
      }
    }

    /** The select-tool branch of `handleStageMouseDown`: select the clicked wall and start dragging it, or deselect all. */
    method SelectToolMouseDown(pos: Point, target: Option<string>)
      requires Valid() && tool == SelectTool
      modifies this
      ensures Valid()
      ensures State() == SelectClick(old(State()), pos, target)
    {
      if Truthy(target) {
        var clickedOnWall := target.value;
        var selectedWallData := FindById(walls, clickedOnWall);
        var selected := SelectOnly(walls, clickedOnWall);
        KeepsWellFormed(walls, selected);
        if selectedWallData.Some? {
          var start := selectedWallData.value.points;
          isDragging, dragOffset := true, GrabOffset(pos, start);
        }
        walls := selected;
      } else {
        KeepsWellFormed(walls, DeselectAll(walls));
        walls := DeselectAll(walls);
      }
    }

    /** The delete-tool branch of `handleStageMouseDown`: delete the clicked wall. */
    method DeleteToolMouseDown(target: Option<string>)
      requires Valid() && tool == DeleteTool
      modifies this
      ensures Valid()
      ensures State() == DeleteClick(old(State()), target)
    {
      if Truthy(target) {
        walls := RemoveId(walls, target.value);
      }
    }

    /** `handleStageMouseUp`. */
    method HandleStageMouseUp()
      requires Valid()
      modifies this
      ensures Valid()
      ensures State() == MouseUp(old(State()))
    {
      isDragging := false;
      dragOffset := Point(0.0, 0.0);
    }

    /** `handleStageMouseMove`, with the dragging geometry over the reals. */
    method HandleStageMouseMove(pointer: Point)
      requires Valid()
      modifies this
      ensures Valid()
      ensures State() == MouseMove(old(State()), pointer)
    {
      var pos := SnapToGrid(pointer);
      ghost var s0 := old(State()).(mousePosition := Some(pos));
      assert State() == s0;
      if isDrawing && tool == WallTool {
        currentWall := [currentWall[0], currentWall[1], pos.x, pos.y];
      } else if isDragging && tool == SelectTool {
        var selectedWall := FindSelected(walls);
        if selectedWall.Some? {
          walls := MoveSelected(walls, DraggedPoints(selectedWall.value.points, pos, dragOffset));
        }
      }
      assert State() == MouseMove(old(State()), pointer);
    }

    /** `handleToolChange`. */
    method HandleToolChange(newTool: Tool)
      requires Valid()
      modifies this
      ensures Valid()
      ensures State() == ToolChange(old(State()), newTool)
    {
      tool := newTool;
      isDrawing := false;
      currentWall := [];
    }

    /** `handleDeleteWall`. */
    method HandleDeleteWall()
      requires Valid()
      modifies this
      ensures Valid()
      ensures State() == DeleteWall(old(State()))
    {
      var selectedCount := |SelectedWalls(walls)|;
      if selectedCount > 0 {
        walls := RemoveSelected(walls);
      } else {
        HandleToolChange(DeleteTool);
      }
    }

    /** `handleToggleGrid`. */
    method HandleToggleGrid()
      requires Valid()
      modifies this
      ensures Valid()
      ensures State() == ToggleGrid(old(State()))
    {
      gridVisible := !gridVisible;
    }

    /** `handleZoom`. */
    method HandleZoom(zoomIn: bool)
      requires Valid()
      modifies this
      ensures Valid()
      ensures State() == Zoom(old(State()), zoomIn)
    {
      var newZoom := if zoomIn then zoom * ZoomFactor else zoom / ZoomFactor;
      zoom := ClampZoom(newZoom);
    }

    /** `updateWallProperty`. */
    method UpdateWallProperty(wallId: string, p: WallProperty)
      requires Valid()
      requires p.Points? ==> |p.points| >= 4
      modifies this
      ensures Valid()
      ensures State() == EditorSpec.UpdateWallProperty(old(State()), wallId, p)
    {
      walls := UpdateProperty(walls, wallId, p);
    }
  }
}
