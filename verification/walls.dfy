/**
 * The `Wall` record and the list updates that the editor's event handlers apply to the
 * wall list: `filter`, `map` and `find` over `Wall[]`, written as functions on `seq<Wall>`.
 */
module Walls {
  import opened Wrappers
  import opened Geometry

  /**
   * A wall as the editor stores it. `points` is a flat coordinate list
   * `[x0, y0, x1, y1, ...]`; the length and drag code read indices 0..3 only.
   */
  datatype Wall = Wall(id: string, points: seq<real>, thickness: real, color: string, selected: bool)

  /** Stroke width of a newly drawn wall. */
  const DefaultThickness: real := 10.0
  /** Colour of a newly drawn wall. */
  const DefaultColor: string := "hsl(var(--wall-default))"

  /** The keys of `Wall` (`keyof Wall`). */
  datatype WallField = IdField | PointsField | ThicknessField | ColorField | SelectedField

  /** A key of `Wall` together with a value of that field's type. */
  datatype WallProperty =
    | Id(id: string)
    | Points(points: seq<real>)
    | Thickness(thickness: real)
    | Color(color: string)
    | Selected(selected: bool)
  {
    function Field(): WallField {
      match this
      case Id(_) => IdField
      case Points(_) => PointsField
      case Thickness(_) => ThicknessField
      case Color(_) => ColorField
      case Selected(_) => SelectedField
    }
  }

  /** Walls `a` and `b` agree on every field other than `f`. */
  predicate AgreeExcept(a: Wall, b: Wall, f: WallField) {
    && (f == IdField || a.id == b.id)
    && (f == PointsField || a.points == b.points)
    && (f == ThicknessField || a.thickness == b.thickness)
    && (f == ColorField || a.color == b.color)
    && (f == SelectedField || a.selected == b.selected)
  }

  /** Wall `w` holds the value that `p` names. */
  predicate Carries(w: Wall, p: WallProperty) {
    match p
    case Id(v) => w.id == v
    case Points(v) => w.points == v
    case Thickness(v) => w.thickness == v
    case Color(v) => w.color == v
    case Selected(v) => w.selected == v
  }

  /** `{ ...wall, [property]: value }`: the named field takes the new value, nothing else changes. */
  function SetProperty(w: Wall, p: WallProperty): (r: Wall)
    ensures Carries(r, p) && AgreeExcept(w, r, p.Field())
  {
    match p
    case Id(v) => w.(id := v)
    case Points(v) => w.(points := v)
    case Thickness(v) => w.(thickness := v)
    case Color(v) => w.(color := v)
    case Selected(v) => w.(selected := v)
  }

  /** Every wall has both endpoints of its first segment. */
  predicate WellFormed(walls: seq<Wall>) {
    forall w :: w in walls ==> |w.points| >= 4
  }

  /** No two walls share an id. */
  predicate UniqueIds(walls: seq<Wall>) {
    forall i, j :: 0 <= i < j < |walls| ==> walls[i].id != walls[j].id
  }

  /** Some wall has id `id`. */
  predicate HasId(walls: seq<Wall>, id: string) {
    exists w :: w in walls && w.id == id
  }

  function IdIs(id: string): Wall -> bool { (w: Wall) => w.id == id }
  function IdIsNot(id: string): Wall -> bool { (w: Wall) => w.id != id }
  function IsSelected(w: Wall): bool { w.selected }
  function IsUnselected(w: Wall): bool { !w.selected }

  /** `a` can be obtained from `b` by deleting elements: `a` keeps `b`'s order. */
  predicate IsSubsequence(a: seq<Wall>, b: seq<Wall>)
    decreases |b|
  {
    if b == [] then a == []
    else (a != [] && a[0] == b[0] && IsSubsequence(a[1..], b[1..])) || IsSubsequence(a, b[1..])
  }

  /** `walls.filter(keep)`. */
  function Keep(walls: seq<Wall>, keep: Wall -> bool): (r: seq<Wall>)
    ensures |r| <= |walls|
    ensures forall w :: w in r <==> w in walls && keep(w)
  {
    if walls == [] then []
    else
      assert walls == [walls[0]] + walls[1..];
      (if keep(walls[0]) then [walls[0]] else []) + Keep(walls[1..], keep)
  }

  /** `filter` keeps the surviving walls in their original order. */
  lemma {:induction false} KeepIsSubsequence(walls: seq<Wall>, keep: Wall -> bool)
    ensures IsSubsequence(Keep(walls, keep), walls)
  {
    if walls != [] {
      KeepIsSubsequence(walls[1..], keep);
      var rest := Keep(walls[1..], keep);
      if keep(walls[0]) {
        assert Keep(walls, keep) == [walls[0]] + rest;
        assert ([walls[0]] + rest)[1..] == rest;
      } else {
        assert Keep(walls, keep) == rest;
      }
    }
  }

  /** A filter and its complementary filter split the list: no wall is lost or duplicated. */
  lemma {:induction false} KeepSplits(walls: seq<Wall>, keep: Wall -> bool, drop: Wall -> bool)
    requires forall w :: drop(w) == !keep(w)
    ensures |Keep(walls, keep)| + |Keep(walls, drop)| == |walls|
  {
    if walls != [] {
      KeepSplits(walls[1..], keep, drop);
    }
  }

  /** A filter that every wall passes changes nothing. */
  lemma {:induction false} KeepAll(walls: seq<Wall>, keep: Wall -> bool)
    requires forall w :: w in walls ==> keep(w)
    ensures Keep(walls, keep) == walls
  {
    if walls != [] {
      assert walls == [walls[0]] + walls[1..];
      KeepAll(walls[1..], keep);
    }
  }

  /** The first `i` walls all fail `p`. */
  predicate NoneBefore(walls: seq<Wall>, p: Wall -> bool, i: int)
    requires 0 <= i <= |walls|
  {
    forall j :: 0 <= j < i ==> !p(walls[j])
  }

  /** `walls.find(p)`: the first wall that satisfies `p`, if any. */
  function FindFirst(walls: seq<Wall>, p: Wall -> bool): (r: Option<Wall>)
    ensures r.None? <==> forall w :: w in walls ==> !p(w)
    ensures r.Some? ==> exists i :: 0 <= i < |walls| && walls[i] == r.value && p(r.value) && NoneBefore(walls, p, i)
  {
    if walls == [] then None
    else if p(walls[0]) then
      assert walls[0] == walls[0] && NoneBefore(walls, p, 0);
      Some(walls[0])
    else
      assert walls == [walls[0]] + walls[1..];
      var r := FindFirst(walls[1..], p);
      assert r.Some? ==> exists i :: 0 < i < |walls| && walls[i] == r.value && p(r.value) && NoneBefore(walls, p, i) by {
        if r.Some? {
          var i :| 0 <= i < |walls[1..]| && walls[1..][i] == r.value && p(r.value) && NoneBefore(walls[1..], p, i);
          assert walls[i + 1] == r.value && NoneBefore(walls, p, i + 1);
        }
      }
      r
  }

  /** `walls.find(wall => wall.id === id)`. */
  function FindById(walls: seq<Wall>, id: string): (r: Option<Wall>)
    ensures r.None? <==> !HasId(walls, id)
    ensures r.Some? ==> r.value in walls && r.value.id == id
    ensures r.Some? ==> exists i :: 0 <= i < |walls| && walls[i] == r.value && forall j :: 0 <= j < i ==> walls[j].id != id
  {
    FindFirst(walls, IdIs(id))
  }

  /** `walls.find(wall => wall.selected)`. */
  function FindSelected(walls: seq<Wall>): (r: Option<Wall>)
    ensures r.None? <==> forall w :: w in walls ==> !w.selected
    ensures r.Some? ==> r.value in walls && r.value.selected
    ensures r.Some? ==> exists i :: 0 <= i < |walls| && walls[i] == r.value && forall j :: 0 <= j < i ==> !walls[j].selected
  {
    FindFirst(walls, IsSelected)
  }

  /** `walls.filter(wall => wall.id !== id)`: delete every wall with id `id`. */
  function RemoveId(walls: seq<Wall>, id: string): (r: seq<Wall>)
    ensures forall w :: w in r <==> w in walls && w.id != id
  {
    Keep(walls, IdIsNot(id))
  }

  /** `walls.filter(wall => wall.selected)`. */
  function SelectedWalls(walls: seq<Wall>): (r: seq<Wall>)
    ensures forall w :: w in r <==> w in walls && w.selected
  {
    Keep(walls, IsSelected)
  }

  /** `walls.filter(wall => !wall.selected)`: delete every selected wall. */
  function RemoveSelected(walls: seq<Wall>): (r: seq<Wall>)
    ensures forall w :: w in r <==> w in walls && !w.selected
  {
    Keep(walls, IsUnselected)
  }

  /** `walls.map(wall => ({ ...wall, selected: wall.id === id }))`. */
  function SelectOnly(walls: seq<Wall>, id: string): (r: seq<Wall>)
    ensures |r| == |walls|
    ensures forall i :: 0 <= i < |r| ==> r[i].selected == (walls[i].id == id) && AgreeExcept(walls[i], r[i], SelectedField)
  {
    seq(|walls|, i requires 0 <= i < |walls| => walls[i].(selected := walls[i].id == id))
  }

  /** `walls.map(wall => ({ ...wall, selected: false }))`. */
  function DeselectAll(walls: seq<Wall>): (r: seq<Wall>)
    ensures |r| == |walls|
    ensures forall i :: 0 <= i < |r| ==> !r[i].selected && AgreeExcept(walls[i], r[i], SelectedField)
  {
    seq(|walls|, i requires 0 <= i < |walls| => walls[i].(selected := false))
  }

  /** `walls.map(wall => wall.id === id ? { ...wall, [property]: value } : wall)`. */
  function UpdateProperty(walls: seq<Wall>, id: string, p: WallProperty): (r: seq<Wall>)
    ensures |r| == |walls|
    ensures forall i :: 0 <= i < |r| && walls[i].id == id ==> Carries(r[i], p) && AgreeExcept(walls[i], r[i], p.Field())
    ensures forall i :: 0 <= i < |r| && walls[i].id != id ==> r[i] == walls[i]
  {
    seq(|walls|, i requires 0 <= i < |walls| => if walls[i].id == id then SetProperty(walls[i], p) else walls[i])
  }

  /** `walls.map(wall => wall.selected ? { ...wall, points } : wall)`: only selected walls move. */
  function MoveSelected(walls: seq<Wall>, points: seq<real>): (r: seq<Wall>)
    ensures |r| == |walls|
    ensures forall i :: 0 <= i < |r| && walls[i].selected ==> r[i].points == points && AgreeExcept(walls[i], r[i], PointsField)
    ensures forall i :: 0 <= i < |r| && !walls[i].selected ==> r[i] == walls[i]
  {
    seq(|walls|, i requires 0 <= i < |walls| => if walls[i].selected then walls[i].(points := points) else walls[i])
  }

  /** The wall that the second click of the wall tool appends. */
  function NewWall(id: string, currentWall: seq<real>, pos: Point): (w: Wall)
    ensures w.id == id && !w.selected
    ensures w.thickness == DefaultThickness && w.color == DefaultColor
    ensures |w.points| == |currentWall| + 2 && w.points[..|currentWall|] == currentWall
    ensures w.points[|currentWall|] == pos.x && w.points[|currentWall| + 1] == pos.y
  {
    Wall(id, currentWall + [pos.x, pos.y], DefaultThickness, DefaultColor, false)
  }

  // ---- properties of the list updates ----

  /** Deleting by an id that no wall carries leaves the list as it is. */
  lemma RemoveAbsentId(walls: seq<Wall>, id: string)
    requires !HasId(walls, id)
    ensures RemoveId(walls, id) == walls
  {
    KeepAll(walls, IdIsNot(id));
  }

  /** Deleting by id removes exactly the walls with that id, keeps the rest in order, and is idempotent. */
  lemma RemoveIdExactly(walls: seq<Wall>, id: string)
    ensures !HasId(RemoveId(walls, id), id)
    ensures forall w :: w in walls && w.id != id ==> w in RemoveId(walls, id)
    ensures IsSubsequence(RemoveId(walls, id), walls)
    ensures |RemoveId(walls, id)| + |Keep(walls, IdIs(id))| == |walls|
    ensures RemoveId(RemoveId(walls, id), id) == RemoveId(walls, id)
  {
    KeepIsSubsequence(walls, IdIsNot(id));
    KeepSplits(walls, IdIsNot(id), IdIs(id));
    RemoveAbsentId(RemoveId(walls, id), id);
  }

  /** Deleting the selected walls removes exactly them and keeps the others in order. */
  lemma RemoveSelectedExactly(walls: seq<Wall>)
    ensures forall w :: w in RemoveSelected(walls) ==> !w.selected
    ensures forall w :: w in walls && !w.selected ==> w in RemoveSelected(walls)
    ensures IsSubsequence(RemoveSelected(walls), walls)
    ensures |RemoveSelected(walls)| == |walls| - |SelectedWalls(walls)|
  {
    KeepIsSubsequence(walls, IsUnselected);
    KeepSplits(walls, IsSelected, IsUnselected);
  }

  /** With unique ids, a select click leaves exactly one wall selected, or none when no wall has the id. */
  lemma {:induction false} SelectOnlySelectsOne(walls: seq<Wall>, id: string)
    requires UniqueIds(walls)
    ensures |SelectedWalls(SelectOnly(walls, id))| == if HasId(walls, id) then 1 else 0
  {
    if walls != [] {
      var r := SelectOnly(walls, id);
      var tail := walls[1..];
      assert UniqueIds(tail) by {
        forall i, j | 0 <= i < j < |tail| ensures tail[i].id != tail[j].id {
          assert tail[i] == walls[i + 1] && tail[j] == walls[j + 1];
        }
      }
      assert r[1..] == SelectOnly(tail, id);
      assert SelectedWalls(r) == (if r[0].selected then [r[0]] else []) + SelectedWalls(r[1..]);
      SelectOnlySelectsOne(tail, id);
      HasIdCons(walls, id);
      if walls[0].id == id {
        assert !HasId(tail, id) by {
          forall w | w in tail ensures w.id != id {
            var j :| 0 <= j < |tail| && tail[j] == w;
            assert walls[j + 1] == w;
          }
        }
      }
    }
  }

  /** A wall with the id is either the first or among the rest. */
  lemma HasIdCons(walls: seq<Wall>, id: string)
    requires walls != []
    ensures HasId(walls, id) <==> walls[0].id == id || HasId(walls[1..], id)
  {
    assert walls == [walls[0]] + walls[1..];
  }

  /** After a deselect click no wall is selected. */
  lemma {:induction false} DeselectAllSelectsNone(walls: seq<Wall>)
    ensures SelectedWalls(DeselectAll(walls)) == []
  {
    if walls != [] {
      var r := DeselectAll(walls);
      assert r == [r[0]] + DeselectAll(walls[1..]);
      DeselectAllSelectsNone(walls[1..]);
    }
  }

  /**
   * Selecting a wall by click and then deleting the selection removes the same walls as clicking
   * it with the delete tool; the survivors end up deselected.
   */
  lemma {:induction false} SelectThenDeleteIsDeleteById(walls: seq<Wall>, id: string)
    ensures RemoveSelected(SelectOnly(walls, id)) == DeselectAll(RemoveId(walls, id))
  {
    if walls != [] {
      var tail := walls[1..];
      var s := SelectOnly(walls, id);
      assert s[1..] == SelectOnly(tail, id);
      SelectThenDeleteIsDeleteById(tail, id);
      var d := DeselectAll(RemoveId(tail, id));
      assert RemoveSelected(s[1..]) == d;
      KeepCons(s, IsUnselected);
      KeepCons(walls, IdIsNot(id));
      if walls[0].id == id {
        assert s[0].selected;
        assert RemoveSelected(s) == RemoveSelected(s[1..]);
        assert RemoveId(walls, id) == RemoveId(tail, id);
      } else {
        assert s[0] == walls[0].(selected := false);
        assert RemoveSelected(s) == [s[0]] + RemoveSelected(s[1..]);
        assert RemoveId(walls, id) == [walls[0]] + RemoveId(tail, id);
        DeselectAllCons(walls[0], RemoveId(tail, id));
      }
    }
  }

  /** Deselecting a list deselects its first wall and then the rest. */
  lemma DeselectAllCons(w: Wall, rest: seq<Wall>)
    ensures DeselectAll([w] + rest) == [w.(selected := false)] + DeselectAll(rest)
  {
    assert ([w] + rest)[1..] == rest;
  }

  /** One step of the filter: the first wall, if it is kept, followed by the filtered rest. */
  lemma KeepCons(walls: seq<Wall>, keep: Wall -> bool)
    requires walls != []
    ensures Keep(walls, keep) == (if keep(walls[0]) then [walls[0]] else []) + Keep(walls[1..], keep)
  {
  }

  /** Updating the property of an id that no wall carries leaves the list as it is. */
  lemma UpdateAbsentId(walls: seq<Wall>, id: string, p: WallProperty)
    requires !HasId(walls, id)
    ensures UpdateProperty(walls, id, p) == walls
  {
    var r := UpdateProperty(walls, id, p);
    forall i | 0 <= i < |walls| ensures r[i] == walls[i] {
      assert walls[i] in walls;
    }
  }

  /** Setting the same property twice is setting it once. */
  lemma UpdatePropertyIdempotent(walls: seq<Wall>, id: string, p: WallProperty)
    requires p.Field() != IdField
    ensures UpdateProperty(UpdateProperty(walls, id, p), id, p) == UpdateProperty(walls, id, p)
  {
    var r := UpdateProperty(walls, id, p);
    var rr := UpdateProperty(r, id, p);
    forall i | 0 <= i < |walls| ensures rr[i] == r[i] {
      if walls[i].id == id {
        assert r[i].id == id;
      }
    }
  }

  /** A property update keeps every wall well formed unless it sets `points` to fewer than four coordinates. */
  lemma UpdatePropertyWellFormed(walls: seq<Wall>, id: string, p: WallProperty)
    requires WellFormed(walls)
    requires p.Points? ==> |p.points| >= 4
    ensures WellFormed(UpdateProperty(walls, id, p))
  {
    var r := UpdateProperty(walls, id, p);
    forall w | w in r ensures |w.points| >= 4 {
      var i :| 0 <= i < |r| && r[i] == w;
      assert walls[i] in walls;
    }
  }

  /** After a select click, the first selected wall is the clicked wall (now flagged as selected). */
  lemma {:induction false} FindSelectedAfterSelect(walls: seq<Wall>, id: string)
    ensures FindSelected(SelectOnly(walls, id)) ==
      match FindById(walls, id)
      case None => None
      case Some(w) => Some(w.(selected := true))
  {
    if walls != [] {
      var r := SelectOnly(walls, id);
      assert r[1..] == SelectOnly(walls[1..], id);
      FindSelectedAfterSelect(walls[1..], id);
    }
  }

  /** After the selected walls are deleted, none of the remaining walls is selected. */
  lemma {:induction false} RemoveSelectedLeavesNoneSelected(walls: seq<Wall>)
    ensures SelectedWalls(RemoveSelected(walls)) == []
  {
    if walls != [] {
      RemoveSelectedLeavesNoneSelected(walls[1..]);
      if !walls[0].selected {
        var r := RemoveSelected(walls);
        assert r == [walls[0]] + RemoveSelected(walls[1..]);
        assert r[1..] == RemoveSelected(walls[1..]);
        assert SelectedWalls(r) == SelectedWalls(r[1..]);
      } else {
        assert RemoveSelected(walls) == RemoveSelected(walls[1..]);
      }
    }
  }

  /** Two lists of the same length whose walls keep at least the coordinates of their counterparts. */
  lemma KeepsWellFormed(walls: seq<Wall>, r: seq<Wall>)
    requires WellFormed(walls)
    requires |r| == |walls|
    requires forall i :: 0 <= i < |r| ==> |r[i].points| >= |walls[i].points| || |r[i].points| >= 4
    ensures WellFormed(r)
  {
    forall w | w in r ensures |w.points| >= 4 {
      var i :| 0 <= i < |r| && r[i] == w;
      assert walls[i] in walls;
    }
  }
}
