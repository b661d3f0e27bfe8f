/**
 * Properties of sequences of editor events: drawing a wall with two clicks, selecting and then
 * deleting, dragging, zooming back and forth, and toggling the grid twice.
 */
module EditorProperties {
  import opened Wrappers
  import opened Geometry
  import opened Walls
  import opened Measure
  import opened EditorSpec

  /** Showing the grid is undone by toggling it again. */
  lemma ToggleGridTwice(s: EditorState)
    requires Inv(s)
    ensures ToggleGrid(ToggleGrid(s)) == s
  {
  }

  /** Zooming in and then out returns to the same zoom when the first step was not clamped. */
  lemma ZoomInThenOut(s: EditorState)
    requires Inv(s) && s.zoom * ZoomFactor <= MaxZoom
    ensures Zoom(Zoom(s, true), false) == s
  {
  }

  /** Zooming out and then in returns to the same zoom when the first step was not clamped. */
  lemma ZoomOutThenIn(s: EditorState)
    requires Inv(s) && s.zoom / ZoomFactor >= MinZoom
    ensures Zoom(Zoom(s, false), true) == s
  {
  }

  /** Zooming in from the upper bound stays there; zooming out from the lower bound stays there. */
  lemma ZoomSaturates(s: EditorState)
    requires Inv(s)
    ensures s.zoom == MaxZoom ==> Zoom(s, true) == s
    ensures s.zoom == MinZoom ==> Zoom(s, false) == s
  {
  }

  /**
   * Two wall-tool clicks with no mouse move in between append one wall whose coordinates are
   * the first snapped click twice followed by the second snapped click. Its length, which reads
   * only the first four coordinates, is 0 whatever the second click was.
   */
  lemma TwoClicksWithoutMove(s: EditorState, p1: Point, p2: Point, t1: Option<string>, t2: Option<string>,
                             id1: string, id2: string, sqrt: real -> real)
    requires Inv(s) && s.tool == WallTool && !s.isDrawing
    requires sqrt(0.0) == 0.0
    ensures var a, b := SnapToGrid(p1), SnapToGrid(p2);
      var r := MouseDown(MouseDown(s, p1, t1, id1), p2, t2, id2);
      && r.walls == s.walls + [Wall(id2, [a.x, a.y, a.x, a.y, b.x, b.y], DefaultThickness, DefaultColor, false)]
      && !r.isDrawing && r.currentWall == []
      && WallLength(r.walls[|s.walls|].points, sqrt) == 0.0
  {
    var a, b := SnapToGrid(p1), SnapToGrid(p2);
    var r := MouseDown(MouseDown(s, p1, t1, id1), p2, t2, id2);
    assert r.walls[|s.walls|] == Wall(id2, [a.x, a.y, a.x, a.y, b.x, b.y], DefaultThickness, DefaultColor, false);
    assert r.walls == r.walls[..|s.walls|] + [r.walls[|s.walls|]];
  }

  /**
   * Click, move, click: the new wall's coordinates are the three snapped positions in order,
   * every one of them on the grid, and its length is that of the segment from the first click
   * to the last mouse move; the position of the finishing click does not enter it.
   */
  lemma ClickMoveClick(s: EditorState, p1: Point, p2: Point, p3: Point, t1: Option<string>, t3: Option<string>,
                       id1: string, id3: string, sqrt: real -> real)
    requires Inv(s) && s.tool == WallTool && !s.isDrawing
    ensures var a, b, c := SnapToGrid(p1), SnapToGrid(p2), SnapToGrid(p3);
      var r := MouseDown(MouseMove(MouseDown(s, p1, t1, id1), p2), p3, t3, id3);
      && |r.walls| == |s.walls| + 1 && r.walls[..|s.walls|] == s.walls
      && r.walls[|s.walls|].points == [a.x, a.y, b.x, b.y, c.x, c.y]
      && (forall k :: 0 <= k < 6 ==> OnGrid(r.walls[|s.walls|].points[k]))
      && WallLength(r.walls[|s.walls|].points, sqrt) == WallLength([a.x, a.y, b.x, b.y], sqrt)
  {
    var a, b, c := SnapToGrid(p1), SnapToGrid(p2), SnapToGrid(p3);
    var s1 := MouseDown(s, p1, t1, id1);
    var s2 := MouseMove(s1, p2);
    assert s2.currentWall == [a.x, a.y, b.x, b.y];
    var r := MouseDown(s2, p3, t3, id3);
    var pts := r.walls[|s.walls|].points;
    assert pts == [a.x, a.y, b.x, b.y] + [c.x, c.y];
    WallLengthReadsFirstSegment([a.x, a.y, b.x, b.y], [c.x, c.y], sqrt);
  }

  /** `filter` cannot create a shared id. */
  lemma {:induction false} KeepKeepsUniqueIds(walls: seq<Wall>, keep: Wall -> bool)
    requires UniqueIds(walls)
    ensures UniqueIds(Keep(walls, keep))
  {
    if walls != [] {
      var tail := walls[1..];
      assert UniqueIds(tail);
      KeepKeepsUniqueIds(tail, keep);
      var rest := Keep(tail, keep);
      if keep(walls[0]) {
        var r := Keep(walls, keep);
        assert r == [walls[0]] + rest;
        forall i, j | 0 <= i < j < |r| ensures r[i].id != r[j].id {
          if i == 0 {
            assert r[j] in rest;
            var k :| 0 <= k < |tail| && tail[k] == r[j];
            assert walls[k + 1] == r[j];
          } else {
            assert r[i] == rest[i - 1] && r[j] == rest[j - 1];
          }
        }
      }
    }
  }

  /**
   * A mouse-down keeps wall ids unique as long as the id given to a new wall is not taken
   * (the source uses the current time in milliseconds).
   */
  lemma MouseDownKeepsUniqueIds(s: EditorState, pointer: Point, target: Option<string>, newId: string)
    requires Inv(s) && UniqueIds(s.walls) && !HasId(s.walls, newId)
    ensures UniqueIds(MouseDown(s, pointer, target, newId).walls)
  {
    var r := MouseDown(s, pointer, target, newId);
    match s.tool
    case WallTool =>
      if s.isDrawing {
        forall i, j | 0 <= i < j < |r.walls| ensures r.walls[i].id != r.walls[j].id {
          if j == |s.walls| {
            assert r.walls[i] == s.walls[i];
            assert s.walls[i] in s.walls;
          } else {
            assert r.walls[i] == s.walls[i] && r.walls[j] == s.walls[j];
          }
        }
      }
    case SelectTool =>
    case DeleteTool =>
      if Truthy(target) {
        KeepKeepsUniqueIds(s.walls, IdIsNot(target.value));
      }
  }

  /**
   * Clicking a wall in select mode and then pressing delete removes the same walls as clicking
   * it in delete mode; the walls that remain are all deselected and the tool stays select.
   */
  lemma SelectThenDelete(s: EditorState, pointer: Point, id: string, newId: string)
    requires Inv(s) && s.tool == SelectTool
    requires id != "" && HasId(s.walls, id)
    ensures var r := DeleteWall(MouseDown(s, pointer, Some(id), newId));
      r.walls == DeselectAll(RemoveId(s.walls, id)) && r.tool == SelectTool
  {
    var w :| w in s.walls && w.id == id;
    var i :| 0 <= i < |s.walls| && s.walls[i] == w;
    var selected := SelectOnly(s.walls, id);
    assert selected[i] in SelectedWalls(selected);
    SelectThenDeleteIsDeleteById(s.walls, id);
  }

  /** Pressing delete with nothing selected switches to the delete tool and changes no wall. */
  lemma DeleteWithoutSelection(s: EditorState)
    requires Inv(s) && forall w :: w in s.walls ==> !w.selected
    ensures DeleteWall(s).walls == s.walls && DeleteWall(s).tool == DeleteTool
  {
    KeepAll(s.walls, IsUnselected);
    KeepSplits(s.walls, IsSelected, IsUnselected);
  }

  /** A dragged wall keeps its length. */
  lemma DragKeepsLength(points: seq<real>, pos: Point, offset: Point, sqrt: real -> real)
    requires |points| >= 4
    ensures WallLength(DraggedPoints(points, pos, offset), sqrt) == WallLength(points, sqrt)
  {
    var d := DraggedPoints(points, pos, offset);
    WallLengthTranslationInvariant(points, d[0] - points[0], d[1] - points[1], sqrt);
    assert d == [points[0] + (d[0] - points[0]), points[1] + (d[1] - points[1]),
                 points[2] + (d[0] - points[0]), points[3] + (d[1] - points[1])];
  }

  /** Dragging with the offset taken at the pointer itself reproduces the first segment. */
  lemma DragFromGrabPoint(points: seq<real>, pos: Point)
    requires |points| >= 4
    ensures DraggedPoints(points, pos, GrabOffset(pos, points)) == points[..4]
  {
    var d := DraggedPoints(points, pos, GrabOffset(pos, points));
    assert d[0] == points[0] && d[1] == points[1] && d[2] == points[2] && d[3] == points[3];
  }

  /** A move that does not leave the grid point where the drag was grabbed reproduces the first segment. */
  lemma MoveFromGrabPoint(s: EditorState, pointer: Point, points: seq<real>)
    requires Inv(s) && s.isDragging && s.tool == SelectTool
    requires FindSelected(s.walls).Some? && FindSelected(s.walls).value.points == points && |points| >= 4
    requires s.dragOffset == GrabOffset(SnapToGrid(pointer), points)
    ensures MouseMove(s, pointer).walls == MoveSelected(s.walls, points[..4])
  {
    var pos := SnapToGrid(pointer);
    DragFromGrabPoint(points, pos);
    assert DraggedPoints(FindSelected(s.walls).value.points, pos, s.dragOffset) == points[..4];
  }

  /** Pressing on an existing wall in select mode selects it and starts a drag from its first point. */
  lemma PressOnWall(s: EditorState, pointer: Point, id: string, newId: string)
    requires Inv(s) && s.tool == SelectTool
    requires id != "" && HasId(s.walls, id)
    ensures var s1 := MouseDown(s, pointer, Some(id), newId);
      var w := FindById(s.walls, id).value;
      && s1.walls == SelectOnly(s.walls, id)
      && s1.isDragging && s1.tool == SelectTool && !s1.isDrawing
      && s1.dragOffset == GrabOffset(SnapToGrid(pointer), w.points)
  {
    var m := s.(mousePosition := Some(SnapToGrid(pointer)));
    assert Truthy(Some(id));
    var r := SelectClick(m, SnapToGrid(pointer), Some(id));
    assert MouseDown(s, pointer, Some(id), newId) == r;
  }

  /**
   * Pressing on a wall in select mode and then moving to any pointer that snaps to the pressed
   * grid point sets every wall with the clicked id to the first segment of the first such wall:
   * that wall goes back where it was but keeps only its first four coordinates, and any other
   * wall sharing the id is moved onto that segment.
   */
  lemma DragInPlace(s: EditorState, pointer: Point, p1: Point, id: string, newId: string)
    requires Inv(s) && s.tool == SelectTool
    requires id != "" && HasId(s.walls, id)
    requires SnapToGrid(p1) == SnapToGrid(pointer)
    ensures var w := FindById(s.walls, id).value;
      MouseMove(MouseDown(s, pointer, Some(id), newId), p1).walls ==
        MoveSelected(SelectOnly(s.walls, id), w.points[..4])
  {
    var w := FindById(s.walls, id).value;
    var s1 := MouseDown(s, pointer, Some(id), newId);
    PressOnWall(s, pointer, id, newId);
    FindSelectedAfterSelect(s.walls, id);
    assert FindSelected(s1.walls).value.points == w.points;
    MoveFromGrabPoint(s1, p1, w.points);
  }
}
