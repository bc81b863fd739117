/** The side panel that edits the selected record's class and tracking id
    (src/components/AnnotationPanel.tsx). Each edit sends the whole displayed
    record back, with one field replaced, as the patch of an update. */
module AnnotationPanel {
  import opened Wrappers
  import opened AnnotationStore

  /** The two fields the panel's inputs edit. */
  datatype EditField = ClassField | TrackingIdField

  /** `{ ...annotation }` as a patch: every key present. */
  function FullCopy(a: Annotation): (p: Patch)
    ensures forall b: Annotation :: Merge(b, p) == a.(extras := b.extras + a.extras)
  {
    Patch(Some(a.id), Some(a.cls), Some(a.bbox2d), Some(a.bbox3d), Some(a.trackingId), a.extras)
  }

  /** `{ ...annotation, [field]: value }`. */
  function Edited(a: Annotation, field: EditField, value: string): Annotation
  {
    match field
    case ClassField => a.(cls := value)
    case TrackingIdField => a.(trackingId := value)
  }

  /** `handleChange(field, value)` (lines 13-18): the update it sends, or nothing
      when the panel shows its placeholder because the selection finds no record.
      The update names the shown record's own id, merging its patch into the
      shown record gives that record with the field edited, and merging it into
      any other record gives the same edited copy over that record's extra keys. */
  function HandleChange(s: State, field: EditField, value: string): (req: Option<(int, Patch)>)
    ensures req.None? <==> Selected(s).None?
    ensures req.Some? ==> req.value.0 == Selected(s).value.id
    ensures req.Some? ==> Merge(Selected(s).value, req.value.1) == Edited(Selected(s).value, field, value)
    ensures req.Some? ==> forall b: Annotation ::
      Merge(b, req.value.1) == Edited(Selected(s).value, field, value).(extras := b.extras + Selected(s).value.extras)
  {
    match Selected(s)
    case None => None
    case Some(a) =>
      assert a.extras + a.extras == a.extras;
      Some((a.id, FullCopy(Edited(a, field, value))))
  }

  /** The store after an edit: the update applied, or the store unchanged. */
  function ApplyEdit(s: State, field: EditField, value: string): State
  {
    match HandleChange(s, field, value)
    case None => s
    case Some(req) => Update(s, req.0, req.1)
  }

  /** An edit gives the selected record the new value and keeps its other fields;
      without a selected record nothing changes. */
  lemma EditSetsField(s: State, field: EditField, value: string)
    ensures Selected(s).None? ==> ApplyEdit(s, field, value) == s
    ensures Selected(s).Some? ==>
      Selected(ApplyEdit(s, field, value)) == Some(Edited(Selected(s).value, field, value))
  {
    if Selected(s).Some? {
      var a := Selected(s).value;
      var e := Edited(a, field, value);
      assert e.extras == a.extras;
      assert a.extras + a.extras == a.extras;
      assert Merge(a, FullCopy(e)) == e;
      UpdateSelected(s, FullCopy(e));
      assert ApplyEdit(s, field, value) == Update(s, a.id, FullCopy(e));
    }
  }

  /** Every other record with the same id (ids need not be unique) is overwritten
      by the displayed one, keeping only its own extra keys; records with other
      ids are untouched. */
  lemma EditOverwritesSameId(s: State, field: EditField, value: string, i: nat)
    requires Selected(s).Some? && i < |s.annotations|
    ensures var a := Selected(s).value;
      var t := ApplyEdit(s, field, value);
      |t.annotations| == |s.annotations|
      && (s.annotations[i].id == a.id ==>
            t.annotations[i] == Edited(a, field, value).(extras := s.annotations[i].extras + a.extras))
      && (s.annotations[i].id != a.id ==> t.annotations[i] == s.annotations[i])
  {
    var a := Selected(s).value;
    UpdateMergesMatching(s, a.id, FullCopy(Edited(a, field, value)));
  }
}
