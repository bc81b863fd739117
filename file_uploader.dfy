/** The folder picker (src/components/FileUploader.tsx): which of the chosen
    files become the point cloud, the image and the annotation document, and
    what is handed to `onDataLoad`. A file is identified by its position in the
    list the browser gives; its contents are bytes. */
module FileUploader {
  import opened Wrappers
  import opened Text
  import opened PcdLoader
  import opened FileIO

  /** A file of the chosen folder: its name and its contents. */
  type FolderFile = PcdFile

  const ImageExtensions: set<string> := {"bmp", "jpg", "jpeg", "png"}
  const AnnotationFileName: string := "annotations.json"

  /** `name.split('.').pop()?.toLowerCase()`: `split` always yields at least one
      piece, so the optional chain never stops. */
  function Extension(name: string): (e: string)
    ensures '.' !in e && |e| <= |name|
    ensures e == ToLower(name[|name| - |e|..])
  {
    LastPieceFollowsLastSeparator(name, '.');
    ToLower(Last(Split(name, '.')))
  }

  /** `extension === 'pcd'`. */
  predicate IsPointCloudExtension(extension: string)
  {
    extension == "pcd"
  }

  /** `['bmp', 'jpg', 'jpeg', 'png'].includes(extension)`. */
  predicate IsImageExtension(extension: string)
  {
    extension in ImageExtensions
  }

  /** `file.name === 'annotations.json'`: the exact name, case included. */
  predicate IsAnnotationFileName(name: string)
  {
    name == AnnotationFileName
  }

  /** The three slots the loop fills. */
  datatype Slot = PointCloudSlot | ImageSlot | AnnotationSlot

  /** Whether a file is a candidate for a slot. */
  predicate Fits(f: FolderFile, slot: Slot)
  {
    match slot
    case PointCloudSlot => IsPointCloudExtension(Extension(f.name))
    case ImageSlot => IsImageExtension(Extension(f.name))
    case AnnotationSlot => IsAnnotationFileName(f.name)
  }

  /** The position of the first candidate for `slot`, if any. */
  function FirstFitting(files: seq<FolderFile>, slot: Slot): (r: Option<nat>)
    ensures r.None? <==> forall i :: 0 <= i < |files| ==> !Fits(files[i], slot)
    ensures r.Some? ==> (r.value < |files| && Fits(files[r.value], slot)
                         && forall i :: 0 <= i < r.value ==> !Fits(files[i], slot))
  {
    if files == [] then None
    else
      var front := files[..|files| - 1];
      assert forall i :: 0 <= i < |front| ==> front[i] == files[i];
      var r := FirstFitting(front, slot);
      if r.Some? then r
      else if Fits(files[|files| - 1], slot) then Some(|files| - 1)
      else None
  }

  /** The position of the last candidate for `slot`, if any. */
  function LastFitting(files: seq<FolderFile>, slot: Slot): (r: Option<nat>)
    ensures r.None? <==> forall i :: 0 <= i < |files| ==> !Fits(files[i], slot)
    ensures r.Some? ==> (r.value < |files| && Fits(files[r.value], slot)
                         && forall i :: r.value < i < |files| ==> !Fits(files[i], slot))
  {
    if files == [] then None
    else if Fits(files[|files| - 1], slot) then Some(|files| - 1)
    else
      var front := files[..|files| - 1];
      assert forall i :: 0 <= i < |front| ==> front[i] == files[i];
      LastFitting(front, slot)
  }

  /** One more file: the first candidate stays, or this file becomes it. */
  lemma FirstFittingStep(files: seq<FolderFile>, i: nat, slot: Slot)
    requires i < |files|
    ensures FirstFitting(files[..i + 1], slot) ==
      if FirstFitting(files[..i], slot).Some? then FirstFitting(files[..i], slot)
      else if Fits(files[i], slot) then Some(i) else None
  {
    assert files[..i + 1][..i] == files[..i];
  }

  /** One more file: it becomes the last candidate, or the last one stays. */
  lemma LastFittingStep(files: seq<FolderFile>, i: nat, slot: Slot)
    requires i < |files|
    ensures LastFitting(files[..i + 1], slot) ==
      if Fits(files[i], slot) then Some(i) else LastFitting(files[..i], slot)
  {
    assert files[..i + 1][..i] == files[..i];
  }

  /** No extension is both a point-cloud and an image extension. */
  lemma ExtensionKindsDisjoint(extension: string)
    ensures !(IsPointCloudExtension(extension) && IsImageExtension(extension))
  {
    if IsPointCloudExtension(extension) {
      assert extension[2] == 'd';
    }
  }

  /** The extension is the lower-cased text after the last dot, or the whole
      lower-cased name when there is no dot. */
  lemma ExtensionFollowsLastDot(name: string)
    ensures '.' !in name ==> Extension(name) == ToLower(name)
    ensures forall k :: 0 <= k < |name| && name[k] == '.' && '.' !in name[k + 1..] ==>
      Extension(name) == ToLower(name[k + 1..])
  {
    LastPieceFollowsLastSeparator(name, '.');
    var e := Last(Split(name, '.'));
    forall k | 0 <= k < |name| && name[k] == '.' && '.' !in name[k + 1..]
      ensures Extension(name) == ToLower(name[k + 1..])
    {
      assert e == name[k + 1..];
    }
  }

  /** A name ending in 'n' has no point-cloud or image extension. */
  lemma EndingInNIsNoOtherKind(name: string)
    requires |name| > 0 && name[|name| - 1] == 'n'
    ensures !IsPointCloudExtension(Extension(name)) && !IsImageExtension(Extension(name))
  {
    LastPieceFollowsLastSeparator(name, '.');
    var e := Last(Split(name, '.'));
    var t := ToLower(e);
    if |e| > 0 {
      assert e[|e| - 1] == 'n';
      assert t[|t| - 1] == 'n';
    }
  }

  /** "annotations.json" is neither a point cloud nor an image, so the
      annotation branch sees every file of that name. */
  lemma AnnotationFileNameIsNoOtherKind(f: FolderFile)
    requires IsAnnotationFileName(f.name)
    ensures !Fits(f, PointCloudSlot) && !Fits(f, ImageSlot)
  {
    EndingInNIsNoOtherKind(f.name);
  }

  /** The selection loop (lines 27-38): the first point cloud, the first image
      and the last file named exactly "annotations.json", by position. */
  method SelectFiles(files: seq<FolderFile>) returns (pointCloud: Option<nat>, image: Option<nat>, annotation: Option<nat>)
    ensures pointCloud == FirstFitting(files, PointCloudSlot)
    ensures image == FirstFitting(files, ImageSlot)
    ensures annotation == LastFitting(files, AnnotationSlot)
  {
    pointCloud, image, annotation := None, None, None;
    for i := 0 to |files|
      invariant pointCloud == FirstFitting(files[..i], PointCloudSlot)
      invariant image == FirstFitting(files[..i], ImageSlot)
      invariant annotation == LastFitting(files[..i], AnnotationSlot)
    {
      FirstFittingStep(files, i, PointCloudSlot);
      FirstFittingStep(files, i, ImageSlot);
      LastFittingStep(files, i, AnnotationSlot);
      ExtensionKindsDisjoint(Extension(files[i].name));
      if IsAnnotationFileName(files[i].name) {
        AnnotationFileNameIsNoOtherKind(files[i]);
      }
      var extension := Extension(files[i].name);
      if IsPointCloudExtension(extension) && pointCloud.None? {
        pointCloud := Some(i);
      } else if IsImageExtension(extension) && image.None? {
        image := Some(i);
      } else if IsAnnotationFileName(files[i].name) {
        annotation := Some(i);
      }
    }
    assert files[..|files|] == files;
  }

  /** One file never fills two slots: the three kinds are pairwise exclusive. */
  lemma SlotsExclusive(f: FolderFile)
    ensures !(Fits(f, PointCloudSlot) && Fits(f, ImageSlot))
    ensures Fits(f, AnnotationSlot) ==> !Fits(f, PointCloudSlot) && !Fits(f, ImageSlot)
  {
    if IsAnnotationFileName(f.name) {
      AnnotationFileNameIsNoOtherKind(f);
    }
  }

  /** The object handed to `onDataLoad`; `Absent` is `undefined`. */
  datatype DataLoad = DataLoad(pointCloud: Option<PointCloud>, imagePath: Option<string>, annotations: AnnotationsField)

  /** How the picker's part of a folder selection ends: nothing chosen, the
      data handed to `onDataLoad`, the failure alert, or a promise that never
      settles (a parse error thrown inside the reader's `onload` does not reject
      the promise around it). */
  datatype FolderOutcome = NoFiles | Delivered(data: DataLoad) | Alerted | Pending

  /** `results[2]?.annotations` for a file that parsed: `undefined` for `null`
      and for a value that is not an object. */
  function AnnotationsMember(parsed: ParseOutcome): AnnotationsField
  {
    if parsed.Parsed? then parsed.doc.annotations else Absent
  }

  /** How `handleFolderSelect` ends for a chosen file list, up to the call of
      `onDataLoad`: a rejected point-cloud load rejects `Promise.all` and raises
      the alert; otherwise a syntax error in the annotation file leaves the
      promise pending; otherwise the chosen files' data is handed on. */
  function FolderSelection(fs: seq<FolderFile>, objectUrl: FolderFile -> string,
                           parse: seq<byte> -> ParseOutcome): (outcome: FolderOutcome)
    ensures !outcome.NoFiles?
    ensures var p := FirstFitting(fs, PointCloudSlot);
      var m := FirstFitting(fs, ImageSlot);
      var a := LastFitting(fs, AnnotationSlot);
      var cloudFails := p.Some? && Loaded(fs[p.value]).Err?;
      var parseFails := a.Some? && parse(fs[a.value].bytes).SyntaxError?;
      (outcome.Alerted? <==> cloudFails)
      && (outcome.Pending? <==> !cloudFails && parseFails)
      && (outcome.Delivered? ==>
            outcome.data.pointCloud == (if p.Some? then Some(Loaded(fs[p.value]).value) else None)
            && outcome.data.imagePath == (if m.Some? then Some(objectUrl(fs[m.value])) else None)
            && outcome.data.annotations == (if a.Some? then AnnotationsMember(parse(fs[a.value].bytes)) else Absent))
  {
    var p := FirstFitting(fs, PointCloudSlot);
    var m := FirstFitting(fs, ImageSlot);
    var a := LastFitting(fs, AnnotationSlot);
    if p.Some? && Loaded(fs[p.value]).Err? then Alerted
    else if a.Some? && parse(fs[a.value].bytes).SyntaxError? then Pending
    else
      Delivered(DataLoad(
        if p.Some? then Some(Loaded(fs[p.value]).value) else None,
        if m.Some? then Some(objectUrl(fs[m.value])) else None,
        if a.Some? then AnnotationsMember(parse(fs[a.value].bytes)) else Absent))
  }

  /** `handleFolderSelect` (lines 15-62) up to the call of `onDataLoad`.
      `objectUrl` stands for `URL.createObjectURL` and `parse` for `JSON.parse`
      of a file's text; the point cloud is read by the loader as written. */
  method HandleFolderSelect(files: Option<seq<FolderFile>>, objectUrl: FolderFile -> string,
                            parse: seq<byte> -> ParseOutcome)
    returns (outcome: FolderOutcome)
    ensures files.None? ==> outcome == NoFiles
    ensures files.Some? ==> outcome == FolderSelection(files.value, objectUrl, parse)
  {
    if files.None? {
      return NoFiles;
    }
    var fs := files.value;
    var pointCloudIndex, imageIndex, annotationIndex := SelectFiles(fs);
    var cloud: Option<PointCloud> := None;
    if pointCloudIndex.Some? {
      var loaded := LoadPcd(fs[pointCloudIndex.value]);
      if loaded.Err? {
        return Alerted;
      }
      cloud := Some(loaded.value);
    }
    var imagePath: Option<string> := None;
    if imageIndex.Some? {
      imagePath := Some(objectUrl(fs[imageIndex.value]));
    }
    var annotations := Absent;
    if annotationIndex.Some? {
      var parsed := parse(fs[annotationIndex.value].bytes);
      if parsed.SyntaxError? {
        return Pending;
      }
      annotations := AnnotationsMember(parsed);
    }
    return Delivered(DataLoad(cloud, imagePath, annotations));
  }

  /** A folder holding only an empty "a.pcd": the loader finds no "DATA", so an
      empty cloud is handed on, with no image and no annotations. */
  lemma LoneEmptyPointCloudIsDelivered(objectUrl: FolderFile -> string, parse: seq<byte> -> ParseOutcome)
    ensures FolderSelection([PcdFile("a.pcd", [])], objectUrl, parse)
            == Delivered(DataLoad(Some(PointCloud([], "a.pcd")), None, Absent))
  {
    var f := PcdFile("a.pcd", []);
    PcdNameFitsOnlyPointCloud(f);
    assert FirstFitting([f], PointCloudSlot) == Some(0);
    assert FirstFitting([f], ImageSlot) == None;
    assert LastFitting([f], AnnotationSlot) == None;
    assert Window(f.bytes) == [];
    assert Loaded(f) == Ok(PointCloud([], "a.pcd"));
  }

  lemma PcdNameFitsOnlyPointCloud(f: FolderFile)
    requires f.name == "a.pcd"
    ensures Fits(f, PointCloudSlot) && !Fits(f, ImageSlot) && !Fits(f, AnnotationSlot)
  {
    var n := f.name;
    assert n[1] == '.' && n[2..] == "pcd" && '.' !in n[2..];
    ExtensionFollowsLastDot(n);
    var e := ToLower("pcd");
    assert Extension(n) == e;
    assert e[0] == 'p' && e[1] == 'c' && e[2] == 'd';
    assert e == "pcd";
    ExtensionKindsDisjoint(e);
    assert |n| != |AnnotationFileName|;
  }
}
