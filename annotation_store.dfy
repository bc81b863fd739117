/** The annotation record types and the store's state transitions
    (src/hooks/useAnnotationStore.ts). Each store action builds a new state from
    the old one (`map`, `filter`, spread), so the store is modelled as pure
    functions over a state record. */
module AnnotationStore {
  import opened Wrappers
  import opened Geometry

  datatype BBox2D = BBox2D(xmin: real, ymin: real, xmax: real, ymax: real)

  datatype Rotation = Rotation(yaw: real)

  /** `center` and `dimensions` are the source's `[x, y, z]` and
      `[width, height, depth]` tuples. */
  datatype BBox3D = BBox3D(center: Vec3, dimensions: Vec3, rotation: Rotation)

  /** The JSON keys of the typed record. */
  const RecordKeys: set<string> := {"id", "class", "bbox_2d", "bbox_3d", "tracking_id"}

  /** Keys outside the typed record that a loaded, untyped JSON object may still
      carry, with their values kept as JSON text. */
  type Extras = m: map<string, string> | m.Keys !! RecordKeys witness map[]

  datatype Annotation = Annotation(
    id: int,
    cls: string,
    bbox2d: BBox2D,
    bbox3d: BBox3D,
    trackingId: string,
    extras: Extras)

  /** `Partial<Annotation>`: each typed key is either present or absent, and
      any other keys the object carries. */
  datatype Patch = Patch(
    id: Option<int>,
    cls: Option<string>,
    bbox2d: Option<BBox2D>,
    bbox3d: Option<BBox3D>,
    trackingId: Option<string>,
    extras: Extras)

  const EmptyPatch := Patch(None, None, None, None, None, map[])

  function Override<T>(current: T, given: Option<T>): T
  {
    if given.Some? then given.value else current
  }

  /** `{ ...a, ...p }`: every key present in `p` replaces the one of `a`. */
  function Merge(a: Annotation, p: Patch): (m: Annotation)
    ensures p.id.Some? ==> m.id == p.id.value
    ensures p.cls.Some? ==> m.cls == p.cls.value
    ensures p.bbox2d.Some? ==> m.bbox2d == p.bbox2d.value
    ensures p.bbox3d.Some? ==> m.bbox3d == p.bbox3d.value
    ensures p.trackingId.Some? ==> m.trackingId == p.trackingId.value
    ensures m.extras.Keys == a.extras.Keys + p.extras.Keys
    ensures forall k :: k in p.extras ==> m.extras[k] == p.extras[k]
  {
    Annotation(
      Override(a.id, p.id),
      Override(a.cls, p.cls),
      Override(a.bbox2d, p.bbox2d),
      Override(a.bbox3d, p.bbox3d),
      Override(a.trackingId, p.trackingId),
      a.extras + p.extras)
  }

  /** The store's state: the ordered records and the selected id (`null` is `None`). */
  datatype State = State(annotations: seq<Annotation>, selected: Option<int>)

  /** The store as created: no records and nothing selected. */
  function Initial(): (s: State)
    ensures s.annotations == [] && s.selected == None
  {
    State([], None)
  }

  /** `selectAnnotation(id)`: sets the selection, whether or not a record has that id. */
  function Select(s: State, id: int): (t: State)
    ensures t.annotations == s.annotations && t.selected == Some(id)
  {
    s.(selected := Some(id))
  }

  /** The `map` of `updateAnnotation`: position by position, a record with the
      id is merged with the patch and any other record is kept. */
  function MergeWhere(anns: seq<Annotation>, id: int, p: Patch): (r: seq<Annotation>)
    ensures |r| == |anns|
    ensures forall i :: 0 <= i < |anns| ==> r[i] == if anns[i].id == id then Merge(anns[i], p) else anns[i]
    decreases |anns|
  {
    if anns == [] then []
    else
      var rest := MergeWhere(anns[1..], id, p);
      assert forall i :: 1 <= i < |anns| ==> anns[1..][i - 1] == anns[i];
      [if anns[0].id == id then Merge(anns[0], p) else anns[0]] + rest
  }

  /** `updateAnnotation(id, p)`: the selection and the number of records are
      kept, and so is every id when the patch carries none. */
  function Update(s: State, id: int, p: Patch): (t: State)
    ensures t.selected == s.selected && |t.annotations| == |s.annotations|
    ensures p.id.None? ==> forall i :: 0 <= i < |s.annotations| ==> t.annotations[i].id == s.annotations[i].id
  {
    s.(annotations := MergeWhere(s.annotations, id, p))
  }

  /** `addAnnotation(r)`: appends `r` after the existing records, with no check
      that its id is new; the selection is kept. */
  function Add(s: State, r: Annotation): (t: State)
    ensures |t.annotations| == |s.annotations| + 1 && t.annotations[|s.annotations|] == r
    ensures t.annotations[..|s.annotations|] == s.annotations && t.selected == s.selected
  {
    s.(annotations := s.annotations + [r])
  }

  /** The `filter` of `removeAnnotation`. */
  function DropId(anns: seq<Annotation>, id: int): seq<Annotation>
    decreases |anns|
  {
    if anns == [] then []
    else (if anns[0].id == id then [] else [anns[0]]) + DropId(anns[1..], id)
  }

  /** `removeAnnotation(id)`: the records with the id go, every other record
      stays, and the selection is left as it was. */
  function Remove(s: State, id: int): (t: State)
    ensures t.selected == s.selected
    ensures forall r :: r in t.annotations <==> r in s.annotations && r.id != id
  {
    DropIdExactly(s.annotations, id);
    s.(annotations := DropId(s.annotations, id))
  }

  ghost predicate HasId(anns: seq<Annotation>, id: int)
  {
    exists i :: 0 <= i < |anns| && anns[i].id == id
  }

  /** The position of the first record with id `id`, if any. */
  function FirstWithId(anns: seq<Annotation>, id: int): (k: Option<nat>)
    ensures k.Some? ==> k.value < |anns| && anns[k.value].id == id
                        && forall j :: 0 <= j < k.value ==> anns[j].id != id
    ensures k.None? ==> forall j :: 0 <= j < |anns| ==> anns[j].id != id
    decreases |anns|
  {
    if anns == [] then None
    else if anns[0].id == id then Some(0)
    else
      var k := FirstWithId(anns[1..], id);
      if k.None? then None else Some(k.value + 1)
  }

  /** `annotations.find(a => a.id === selectedId)`: the first record whose id is
      the selection; nothing when the selection is `null` or dangling. */
  function Find(anns: seq<Annotation>, selected: Option<int>): (r: Option<Annotation>)
    ensures r.Some? <==> selected.Some? && HasId(anns, selected.value)
    ensures r.Some? ==> (exists k :: 0 <= k < |anns| && anns[k] == r.value && r.value.id == selected.value
                                && forall j :: 0 <= j < k ==> anns[j].id != selected.value)
  {
    if selected.None? then None
    else
      var k := FirstWithId(anns, selected.value);
      if k.None? then None else Some(anns[k.value])
  }

  /** The record the selection designates in state `s`. */
  function Selected(s: State): Option<Annotation>
  {
    Find(s.annotations, s.selected)
  }

  ghost predicate UniqueIds(anns: seq<Annotation>)
  {
    forall i, j :: 0 <= i < j < |anns| ==> anns[i].id != anns[j].id
  }

  // ---------------------------------------------------------------- lemmas

  /** `update` merges the patch into every record with that id and leaves the
      others, the order, the length and the selection as they were. */
  lemma UpdateMergesMatching(s: State, id: int, p: Patch)
    ensures var t := Update(s, id, p);
      |t.annotations| == |s.annotations| && t.selected == s.selected
      && forall i :: 0 <= i < |s.annotations| ==>
           t.annotations[i] == if s.annotations[i].id == id then Merge(s.annotations[i], p) else s.annotations[i]
  {
  }

  /** `update` with an id no record has changes nothing. */
  lemma {:induction false} UpdateAbsentIsNoop(s: State, id: int, p: Patch)
    requires !HasId(s.annotations, id)
    ensures Update(s, id, p) == s
  {
    assert MergeWhere(s.annotations, id, p) == s.annotations;
  }

  /** The merge keeps the keys the patch leaves out. */
  lemma MergeKeepsAbsentKeys(a: Annotation, p: Patch)
    ensures p.id.None? ==> Merge(a, p).id == a.id
    ensures p.cls.None? ==> Merge(a, p).cls == a.cls
    ensures p.bbox2d.None? ==> Merge(a, p).bbox2d == a.bbox2d
    ensures p.bbox3d.None? ==> Merge(a, p).bbox3d == a.bbox3d
    ensures p.trackingId.None? ==> Merge(a, p).trackingId == a.trackingId
    ensures forall k :: k in a.extras && k !in p.extras ==> Merge(a, p).extras[k] == a.extras[k]
  {
  }

  /** An empty patch merges to the record itself, and merging twice is merging once. */
  lemma MergeIdentityAndIdempotence(a: Annotation, p: Patch)
    ensures Merge(a, EmptyPatch) == a
    ensures Merge(Merge(a, p), p) == Merge(a, p)
  {
    assert a.extras + map[] == a.extras;
    assert (a.extras + p.extras) + p.extras == a.extras + p.extras;
  }

  /** `filter` distributes over concatenation: the kept records stay in their
      relative order. */
  lemma {:induction false} DropIdAppend(a: seq<Annotation>, b: seq<Annotation>, id: int)
    ensures DropId(a + b, id) == DropId(a, id) + DropId(b, id)
    decreases |a|
  {
    if a == [] {
      assert a + b == b;
    } else {
      assert (a + b)[0] == a[0];
      assert (a + b)[1..] == a[1..] + b;
      DropIdAppend(a[1..], b, id);
    }
  }

  /** `remove` leaves no record with that id and keeps every other record. */
  lemma {:induction false} DropIdExactly(anns: seq<Annotation>, id: int)
    ensures forall r :: r in DropId(anns, id) <==> r in anns && r.id != id
    ensures |DropId(anns, id)| <= |anns|
    ensures !HasId(anns, id) ==> DropId(anns, id) == anns
    decreases |anns|
  {
    if anns != [] {
      DropIdExactly(anns[1..], id);
      assert anns == [anns[0]] + anns[1..];
      if !HasId(anns, id) {
        assert !HasId(anns[1..], id) by {
          forall i | 0 <= i < |anns[1..]| ensures anns[1..][i].id != id {
            assert anns[1..][i] == anns[i + 1];
          }
        }
      }
    }
  }

  /** Adding a record and then removing its id gives the same records as removing
      that id before; the selection is untouched by both, so a selection of that
      id is left dangling and finds nothing afterwards. */
  lemma AddThenRemove(s: State, r: Annotation)
    ensures Remove(Add(s, r), r.id).annotations == Remove(s, r.id).annotations
    ensures Remove(Add(s, r), r.id).selected == s.selected
    ensures !HasId(Remove(Add(s, r), r.id).annotations, r.id)
    ensures s.selected == Some(r.id) ==> Selected(Remove(Add(s, r), r.id)).None?
  {
    DropIdAppend(s.annotations, [r], r.id);
    assert DropId([r], r.id) == [];
    var t := Remove(Add(s, r), r.id);
    DropIdExactly(s.annotations + [r], r.id);
    assert !HasId(t.annotations, r.id) by {
      forall i | 0 <= i < |t.annotations| ensures t.annotations[i].id != r.id {
        assert t.annotations[i] in t.annotations;
      }
    }
  }

  /** `remove` never changes the selection, even when it pointed at the removed id. */
  lemma RemoveKeepsSelection(s: State, id: int)
    ensures Remove(s, id).selected == s.selected
    ensures s.selected == Some(id) ==> Selected(Remove(s, id)).None?
  {
    DropIdExactly(s.annotations, id);
    var t := Remove(s, id);
    assert !HasId(t.annotations, id) by {
      forall i | 0 <= i < |t.annotations| ensures t.annotations[i].id != id {
        assert t.annotations[i] in t.annotations;
      }
    }
  }

  /** The lookup finds the record that a selection of a unique id designates. */
  lemma FindUnique(anns: seq<Annotation>, k: nat)
    requires UniqueIds(anns) && k < |anns|
    ensures Find(anns, Some(anns[k].id)) == Some(anns[k])
  {
    var f := FirstWithId(anns, anns[k].id);
    assert f.Some?;
  }

  lemma {:induction false} FirstWithIdSameIds(a: seq<Annotation>, b: seq<Annotation>, id: int)
    requires |a| == |b| && forall i :: 0 <= i < |a| ==> a[i].id == b[i].id
    ensures FirstWithId(a, id) == FirstWithId(b, id)
    decreases |a|
  {
    if a != [] {
      assert forall i :: 0 <= i < |a| - 1 ==> a[1..][i].id == b[1..][i].id by {
        forall i | 0 <= i < |a| - 1 ensures a[1..][i].id == b[1..][i].id {
          assert a[1..][i] == a[i + 1] && b[1..][i] == b[i + 1];
        }
      }
      FirstWithIdSameIds(a[1..], b[1..], id);
    }
  }

  /** An update that leaves the id alone, or sets it to itself, keeps the
      selection on the same record, which now carries the patch. */
  lemma UpdateSelected(s: State, p: Patch)
    requires Selected(s).Some? && (p.id.None? || p.id == Some(Selected(s).value.id))
    ensures Selected(Update(s, Selected(s).value.id, p)) == Some(Merge(Selected(s).value, p))
  {
    var a := Selected(s).value;
    var t := Update(s, a.id, p);
    UpdateMergesMatching(s, a.id, p);
    FirstWithIdSameIds(s.annotations, t.annotations, a.id);
  }
}
