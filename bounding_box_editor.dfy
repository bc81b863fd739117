/** The 3D box editor (src/components/BoundingBoxEditor.tsx): the handles drawn
    on the selected box in each view, the mouse drag that moves the box centre in
    the plane of an orthographic view, and the numeric fields that edit the
    centre and the yaw. Rendering, the camera and ray casting are outside the
    model: the object a click hits and the point where the mouse ray meets the
    drag plane are inputs. */
module BoundingBoxEditor {
  import opened Wrappers
  import opened Geometry
  import opened AnnotationStore

  /** The component's `view` prop. */
  datatype View = Perspective | Top | Front | Side

  /** The edge of the cube drawn for each handle. */
  function HandleSize(view: View): real
  {
    if view == Perspective then 0.1 else 0.2
  }

  /** The handle table (lines 236-273), in the box's own frame; `dims` is
      `[width, height, depth]`. */
  function HandlePositions(view: View, dims: Vec3): (hs: seq<Vec3>)
    ensures |hs| == if view == Perspective then 8 else 4
  {
    var w, h, d := dims.x, dims.y, dims.z;
    match view
    case Top =>
      [Vec3(-w / 2.0, 0.0, -d / 2.0), Vec3(-w / 2.0, 0.0, d / 2.0),
       Vec3(w / 2.0, 0.0, -d / 2.0), Vec3(w / 2.0, 0.0, d / 2.0)]
    case Front =>
      [Vec3(-w / 2.0, -h / 2.0, 0.0), Vec3(-w / 2.0, h / 2.0, 0.0),
       Vec3(w / 2.0, -h / 2.0, 0.0), Vec3(w / 2.0, h / 2.0, 0.0)]
    case Side =>
      [Vec3(0.0, -h / 2.0, -d / 2.0), Vec3(0.0, -h / 2.0, d / 2.0),
       Vec3(0.0, h / 2.0, -d / 2.0), Vec3(0.0, h / 2.0, d / 2.0)]
    case Perspective =>
      [Vec3(-w / 2.0, -h / 2.0, -d / 2.0), Vec3(-w / 2.0, -h / 2.0, d / 2.0),
       Vec3(-w / 2.0, h / 2.0, -d / 2.0), Vec3(-w / 2.0, h / 2.0, d / 2.0),
       Vec3(w / 2.0, -h / 2.0, -d / 2.0), Vec3(w / 2.0, -h / 2.0, d / 2.0),
       Vec3(w / 2.0, h / 2.0, -d / 2.0), Vec3(w / 2.0, h / 2.0, d / 2.0)]
  }

  function Sign(positive: bool): real
  {
    if positive then 1.0 else -1.0
  }

  /** Corner `i` of a box centred on the origin: bit 2 of `i` chooses the side in
      x, bit 1 in y, bit 0 in z, the negative side first. */
  function Corner(i: nat, dims: Vec3): Vec3
    requires i < 8
  {
    Vec3(Sign(i / 4 == 1) * dims.x / 2.0, Sign((i / 2) % 2 == 1) * dims.y / 2.0, Sign(i % 2 == 1) * dims.z / 2.0)
  }

  /** The axis an orthographic view looks along; its handles have 0 there. */
  function FlatAxis(view: View): Axis
    requires view != Perspective
  {
    match view
    case Top => Y
    case Front => Z
    case Side => X
  }

  /** The corners whose projections an orthographic view shows, in the order of
      its handles. */
  function ProjectedCorners(view: View): (cs: seq<nat>)
    requires view != Perspective
    ensures |cs| == 4 && forall k :: 0 <= k < 4 ==> cs[k] < 8
  {
    match view
    case Top => [0, 1, 4, 5]
    case Front => [0, 2, 4, 6]
    case Side => [0, 1, 2, 3]
  }

  /** The perspective view has a handle on each of the eight corners, in corner order. */
  lemma PerspectiveHandlesAreCorners(dims: Vec3)
    ensures forall i :: 0 <= i < 8 ==> HandlePositions(Perspective, dims)[i] == Corner(i, dims)
  {
    var hs := HandlePositions(Perspective, dims);
    assert hs[0] == Corner(0, dims) && hs[1] == Corner(1, dims) && hs[2] == Corner(2, dims) && hs[3] == Corner(3, dims);
    assert hs[4] == Corner(4, dims) && hs[5] == Corner(5, dims) && hs[6] == Corner(6, dims) && hs[7] == Corner(7, dims);
  }

  /** Each orthographic handle is a corner pressed flat along the viewing axis. */
  lemma OrthoHandlesAreFlattenedCorners(view: View, dims: Vec3)
    requires view != Perspective
    ensures forall k :: 0 <= k < 4 ==>
      HandlePositions(view, dims)[k] == Set(Corner(ProjectedCorners(view)[k], dims), FlatAxis(view), 0.0)
  {
    var hs := HandlePositions(view, dims);
    var cs := ProjectedCorners(view);
    var a := FlatAxis(view);
    assert hs[0] == Set(Corner(cs[0], dims), a, 0.0);
    assert hs[1] == Set(Corner(cs[1], dims), a, 0.0);
    assert hs[2] == Set(Corner(cs[2], dims), a, 0.0);
    assert hs[3] == Set(Corner(cs[3], dims), a, 0.0);
  }

  /** Every handle lies on the box: within half a dimension of the centre on every
      axis, and on the centre plane of the viewing axis in an orthographic view. */
  lemma HandlesOnBox(view: View, dims: Vec3, k: nat)
    requires k < |HandlePositions(view, dims)|
    ensures forall a :: Abs(Get(HandlePositions(view, dims)[k], a)) <= Abs(Get(dims, a)) / 2.0
    ensures view != Perspective ==> Get(HandlePositions(view, dims)[k], FlatAxis(view)) == 0.0
  {
  }

  /** With every dimension positive, no two handles of a view coincide. */
  lemma HandlesDistinct(view: View, dims: Vec3)
    requires dims.x > 0.0 && dims.y > 0.0 && dims.z > 0.0
    ensures forall i, j :: 0 <= i < j < |HandlePositions(view, dims)| ==>
      HandlePositions(view, dims)[i] != HandlePositions(view, dims)[j]
  {
  }

  /** The handles the box effect leaves in the scene, given those the previous
      run left there. When the selection finds no record the effect returns
      (line 205) before it removes the previous box, so the previous handles
      stay. The lookup compares ids, so the code's second test
      `selectedId === annotation.id` always holds. */
  function ShownHandles(s: State, view: View, previous: seq<Vec3>): (hs: seq<Vec3>)
    ensures Selected(s).None? ==> hs == previous
    ensures Selected(s).Some? ==> hs == HandlePositions(view, Selected(s).value.bbox3d.dimensions)
  {
    match Selected(s)
    case None => previous
    case Some(a) => if s.selected == Some(a.id) then HandlePositions(view, a.bbox3d.dimensions) else []
  }

  /** The handles a run of the box effect should leave: those of the looked-up
      record, and none when the selection finds no record. */
  function IntendedHandles(s: State, view: View): (hs: seq<Vec3>)
    ensures hs == [] <==> Selected(s).None?
    ensures Selected(s).Some? ==> hs == HandlePositions(view, Selected(s).value.bbox3d.dimensions)
  {
    match Selected(s)
    case None => []
    case Some(a) => HandlePositions(view, a.bbox3d.dimensions)
  }

  /** Removing the selected record keeps its handles on screen: the selection
      stays, the lookup finds nothing, and the effect returns before removing the
      old box, while the intended effect shows no handles. */
  lemma StaleHandlesAfterRemove(s: State, view: View)
    requires Selected(s).Some?
    ensures var shown := ShownHandles(s, view, []);
            var t := Remove(s, Selected(s).value.id);
            shown != [] && ShownHandles(t, view, shown) == shown && IntendedHandles(t, view) == []
  {
    var a := Selected(s).value;
    assert s.selected == Some(a.id);
    RemoveKeepsSelection(s, a.id);
  }

  /** The length of the heading arrow: half the larger of width and depth. */
  function ArrowLength(dims: Vec3): (len: real)
    ensures len >= dims.x / 2.0 && len >= dims.z / 2.0
    ensures len == dims.x / 2.0 || len == dims.z / 2.0
  {
    Max(dims.x, dims.z) * 0.5
  }

  // ------------------------------------------------------------ dragging

  /** `new THREE.Plane(normal, 0)` with a unit axis normal. */
  datatype Plane = Plane(normal: Axis, constant: real)

  /** The plane mouse-down creates: y = 0 for top, z = 0 for front, x = 0 for
      side, none for perspective. */
  function DragPlane(view: View): (p: Option<Plane>)
    ensures p.None? <==> view == Perspective
    ensures p.Some? ==> p.value.normal == FlatAxis(view) && p.value.constant == 0.0
  {
    match view
    case Top => Some(Plane(Y, 0.0))
    case Front => Some(Plane(Z, 0.0))
    case Side => Some(Plane(X, 0.0))
    case Perspective => None
  }

  /** `newCenter` of mouse-move: the old centre with the two in-plane coordinates
      taken from the point where the mouse ray meets the drag plane; the
      coordinate along the plane's normal is kept, and the perspective view,
      which has no plane, keeps the centre. */
  function DragCenter(view: View, center: Vec3, point: Vec3): (c: Vec3)
    ensures view == Perspective ==> c == center
    ensures view != Perspective ==>
      Get(c, DragPlane(view).value.normal) == Get(center, DragPlane(view).value.normal)
      && forall a :: a != FlatAxis(view) ==> Get(c, a) == Get(point, a)
  {
    match view
    case Top => Vec3(point.x, center.y, point.z)
    case Front => Vec3(point.x, point.y, center.z)
    case Side => Vec3(center.x, point.y, point.z)
    case Perspective => center
  }

  /** What the click hit: a handle (by its index) or the heading arrow, both
      children of the box. */
  datatype Hit = HandleHit(index: nat) | ArrowHit

  /** The update mouse-move sends: `bbox_3d` with only the centre replaced.
      Merged into any record it sets that record's box to `a`'s box at the new
      centre and leaves every other field alone. */
  function CenterPatch(a: Annotation, center: Vec3): (p: Patch)
    ensures forall b: Annotation :: Merge(b, p) == b.(bbox3d := a.bbox3d.(center := center))
  {
    var p := EmptyPatch.(bbox3d := Some(a.bbox3d.(center := center)));
    assert forall b: Annotation :: b.extras + p.extras == b.extras;
    p
  }

  /** The drag state kept in refs and state across mouse events.
      `listenerPlane` is the `dragPlane` the registered mouse-move listener
      sees: the listener is a closure of the render whose effect registered it,
      and that effect runs again only when the view or the record changes. */
  class DragController {
    const view: View
    var dragging: bool
    var handle: Option<Hit>
    var plane: Option<Plane>
    var listenerPlane: Option<Plane>

    /** A handle is held exactly while dragging, and the plane is the view's
        while dragging and absent otherwise; the listener's plane is one of
        the two values the plane takes. */
    ghost predicate Valid()
      reads this
    {
      (dragging <==> handle.Some?) && plane == (if dragging then DragPlane(view) else None)
      && (listenerPlane == None || listenerPlane == DragPlane(view))
    }

    /** Mounting: no drag, and the listener registered by the first render,
        in which `dragPlane` is still `null`. */
    constructor(view: View)
      ensures this.view == view && !dragging && handle == None && plane == None
      ensures listenerPlane == None
      ensures Valid()
    {
      this.view := view;
      dragging := false;
      handle := None;
      plane := None;
      listenerPlane := None;
    }

    /** A render after a state change. When the record shown has changed the
        effect (lines 186-201) registers new listeners, which see the current
        plane; otherwise the old listeners stay. */
    method Rerender(recordChanged: bool)
      requires Valid()
      modifies this
      ensures Valid()
      ensures dragging == old(dragging) && handle == old(handle) && plane == old(plane)
      ensures listenerPlane == if recordChanged then plane else old(listenerPlane)
    {
      if recordChanged {
        listenerPlane := plane;
      }
    }

    /** `handleMouseDown` (lines 112-142): with a looked-up record and a hit,
        start dragging the hit object; otherwise nothing changes. */
    method MouseDown(s: State, hit: Option<Hit>)
      requires Valid()
      modifies this
      ensures Valid()
      ensures Selected(s).Some? && hit.Some? ==> dragging && handle == hit && plane == DragPlane(view)
      ensures Selected(s).None? || hit.None? ==> dragging == old(dragging) && handle == old(handle) && plane == old(plane)
      ensures listenerPlane == old(listenerPlane)
    {
      if Selected(s).None? {
        return;
      }
      if hit.Some? {
        dragging := true;
        handle := hit;
        if view == Top {
          plane := Some(Plane(Y, 0.0));
        } else if view == Front {
          plane := Some(Plane(Z, 0.0));
        } else if view == Side {
          plane := Some(Plane(X, 0.0));
        } else {
          plane := None;
        }
      }
    }

    /** `handleMouseMove` (lines 144-177): while dragging in a plane with a
        looked-up record, move that record's centre; otherwise the store is left
        as it was. */
    method MouseMove(s: State, point: Vec3) returns (t: State)
      requires Valid()
      ensures dragging && handle.Some? && plane.Some? && Selected(s).Some? ==>
        t == Update(s, Selected(s).value.id,
                    CenterPatch(Selected(s).value, DragCenter(view, Selected(s).value.bbox3d.center, point)))
      ensures !(dragging && handle.Some? && plane.Some? && Selected(s).Some?) ==> t == s
    {
      var annotation := Selected(s);
      if !dragging || handle.None? || plane.None? || annotation.None? {
        return s;
      }
      var a := annotation.value;
      var newCenter := a.bbox3d.center;
      if view == Top {
        newCenter := newCenter.(x := point.x).(z := point.z);
      } else if view == Front {
        newCenter := newCenter.(x := point.x).(y := point.y);
      } else if view == Side {
        newCenter := newCenter.(z := point.z).(y := point.y);
      }
      t := Update(s, a.id, CenterPatch(a, newCenter));
    }

    /** The mouse-move handler as the registered listener runs it: the same
        steps as `MouseMove`, but testing the plane of the render that
        registered the listener. */
    method MouseMoveAsWritten(s: State, point: Vec3) returns (t: State)
      requires Valid()
      ensures dragging && handle.Some? && listenerPlane.Some? && Selected(s).Some? ==>
        t == Update(s, Selected(s).value.id,
                    CenterPatch(Selected(s).value, DragCenter(view, Selected(s).value.bbox3d.center, point)))
      ensures !(dragging && handle.Some? && listenerPlane.Some? && Selected(s).Some?) ==> t == s
    {
      var annotation := Selected(s);
      if !dragging || handle.None? || listenerPlane.None? || annotation.None? {
        return s;
      }
      var a := annotation.value;
      t := Update(s, a.id, CenterPatch(a, DragCenter(view, a.bbox3d.center, point)));
    }

    /** `handleMouseUp`, also bound to mouse-leave (lines 179-183). */
    method MouseUp()
      requires Valid()
      modifies this
      ensures !dragging && handle == None && plane == None
      ensures listenerPlane == old(listenerPlane)
      ensures Valid()
    {
      dragging := false;
      handle := None;
      plane := None;
    }
  }

  /** The first drag after mounting, in an orthographic view with a record
      selected: the handle is hit and the state is rendered again, and since
      nothing changed the record the listener still sees no plane. The move as
      the listener runs it leaves the store as it was, while the intended move
      updates the record, and changes the store whenever the centre moves. */
  method StaleDragExample(s: State, view: View, point: Vec3) returns (asWritten: State, intended: State)
    requires view != Perspective && Selected(s).Some?
    ensures asWritten == s
    ensures var a := Selected(s).value;
      intended == Update(s, a.id, CenterPatch(a, DragCenter(view, a.bbox3d.center, point)))
    ensures var a := Selected(s).value;
      DragCenter(view, a.bbox3d.center, point) != a.bbox3d.center ==> intended != s
  {
    var c := new DragController(view);
    c.MouseDown(s, Some(HandleHit(0)));
    c.Rerender(false);
    asWritten := c.MouseMoveAsWritten(s, point);
    intended := c.MouseMove(s, point);
    DragMovesOnlyTheCenter(s, view, point);
  }

  /** In the perspective view no plane is ever set, so a move never edits. */
  lemma PerspectiveNeverDrags(c: DragController)
    requires c.Valid() && c.view == Perspective
    ensures c.plane.None?
  {
  }

  /** After a drag the selected record has the new centre and keeps its size, its
      yaw and all its other fields. */
  lemma DragMovesOnlyTheCenter(s: State, view: View, point: Vec3)
    requires Selected(s).Some?
    ensures var a := Selected(s).value;
      var c := DragCenter(view, a.bbox3d.center, point);
      Selected(Update(s, a.id, CenterPatch(a, c))) == Some(a.(bbox3d := a.bbox3d.(center := c)))
  {
    var a := Selected(s).value;
    UpdateSelected(s, CenterPatch(a, DragCenter(view, a.bbox3d.center, point)));
    assert a.extras + map[] == a.extras;
  }

  // ------------------------------------------------------------ field edits

  /** The X, Y and Z inputs (lines 316-354): one coordinate of the centre set to
      the typed value. */
  function CenterEdit(a: Annotation, axis: Axis, value: real): Patch
  {
    CenterPatch(a, Set(a.bbox3d.center, axis, value))
  }

  /** The yaw slider (lines 364-370): `bbox_3d` with only the rotation replaced. */
  function YawEdit(a: Annotation, yaw: real): Patch
  {
    EmptyPatch.(bbox3d := Some(a.bbox3d.(rotation := Rotation(yaw))))
  }

  /** A coordinate edit changes that coordinate of the selected record's centre
      and nothing else of it. */
  lemma CenterEditSetsOneCoordinate(s: State, axis: Axis, value: real)
    requires Selected(s).Some?
    ensures var a := Selected(s).value;
      var r := Selected(Update(s, a.id, CenterEdit(a, axis, value)));
      r.Some? && Get(r.value.bbox3d.center, axis) == value
      && (forall b :: b != axis ==> Get(r.value.bbox3d.center, b) == Get(a.bbox3d.center, b))
      && r.value.bbox3d.dimensions == a.bbox3d.dimensions && r.value.bbox3d.rotation == a.bbox3d.rotation
      && r.value.(bbox3d := a.bbox3d) == a
  {
    var a := Selected(s).value;
    UpdateSelected(s, CenterEdit(a, axis, value));
  }

  /** A yaw edit changes the selected record's yaw and nothing else of it. */
  lemma YawEditSetsRotation(s: State, yaw: real)
    requires Selected(s).Some?
    ensures var a := Selected(s).value;
      Selected(Update(s, a.id, YawEdit(a, yaw))) == Some(a.(bbox3d := a.bbox3d.(rotation := Rotation(yaw))))
  {
    var a := Selected(s).value;
    UpdateSelected(s, YawEdit(a, yaw));
    assert a.extras + map[] == a.extras;
  }
}
