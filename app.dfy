/** The top-level component (src/App.tsx): the folder name shown for a loaded
    point cloud, and how the data handed on by the folder picker updates the
    component's state and the annotation store. */
module App {
  import opened Wrappers
  import opened AnnotationStore
  import opened PcdLoader
  import opened FileIO
  import opened FileUploader
  import opened Text

  /** `/` or `\`, the separators of the folder-name pattern. */
  predicate IsSeparator(c: char)
  {
    c == '/' || c == '\\'
  }

  /** No separator at the indices `lo` to `hi - 1`. */
  ghost predicate FreeBetween(s: string, lo: int, hi: int)
    requires 0 <= lo && hi <= |s|
  {
    forall i :: lo <= i < hi ==> !IsSeparator(s[i])
  }

  /** A match of `/([^/\\]+)[/\\][^/\\]+$/` with group 1 at `name[k..m]`: a
      separator-free run, a separator at `m`, and a non-empty separator-free run
      to the end of the name. */
  ghost predicate PatternMatch(name: string, k: int, m: int)
  {
    0 <= k < m && m + 1 < |name|
    && FreeBetween(name, k, m) && IsSeparator(name[m]) && FreeBetween(name, m + 1, |name|)
  }

  /** The index of the last separator, or -1 when there is none. */
  function LastSeparator(s: string): (r: int)
    ensures -1 <= r < |s|
    ensures r >= 0 ==> IsSeparator(s[r])
    ensures FreeBetween(s, r + 1, |s|)
  {
    if s == [] then -1
    else if IsSeparator(s[|s| - 1]) then |s| - 1
    else LastSeparator(s[..|s| - 1])
  }

  /** Where group 1 of the leftmost match lies: between the separator before the
      last one (or the start) and the last separator. */
  function FolderSpan(name: string): Option<(int, int)>
  {
    var m := LastSeparator(name);
    if m < 0 || m + 1 == |name| then None
    else
      var k := LastSeparator(name[..m]) + 1;
      if k == m then None else Some((k, m))
  }

  /** `folderMatch ? folderMatch[1] : undefined`: a non-empty, separator-free
      piece of the name that ends at its last separator. */
  function FolderName(name: string): (f: Option<string>)
    ensures f.Some? ==> f.value != [] && forall i :: 0 <= i < |f.value| ==> !IsSeparator(f.value[i])
    ensures f.Some? ==> var m := LastSeparator(name);
      0 <= m && |f.value| <= m && name[m - |f.value|..m] == f.value
  {
    match FolderSpan(name)
    case None => None
    case Some(span) => if 0 <= span.0 <= span.1 <= |name| then Some(name[span.0..span.1]) else None
  }

  /** The span is that of the leftmost match, and there is no match when there
      is no span: every match ends at the last separator and starts at or after
      the span's start. */
  lemma FolderSpanIsLeftmostMatch(name: string)
    ensures FolderSpan(name).Some? ==>
      var (k, m) := FolderSpan(name).value;
      PatternMatch(name, k, m)
      && forall k', m' :: PatternMatch(name, k', m') ==> m' == m && k <= k'
    ensures FolderSpan(name).None? ==> forall k, m :: !PatternMatch(name, k, m)
  {
    var m := LastSeparator(name);
    if 0 <= m {
      var j := LastSeparator(name[..m]);
      assert forall i :: j < i < m ==> !IsSeparator(name[i]) by {
        forall i | j < i < m ensures !IsSeparator(name[i]) {
          assert name[..m][i] == name[i];
        }
      }
      assert 0 <= j ==> IsSeparator(name[j]) by {
        if 0 <= j {
          assert name[..m][j] == name[j];
        }
      }
    }
  }

  /** Group 1 of the leftmost match, or nothing when the pattern does not
      match; the name found is non-empty and has no separator. */
  lemma FolderNameIsGroupOne(name: string)
    ensures FolderName(name).Some? <==> exists k, m :: PatternMatch(name, k, m)
    ensures FolderName(name).Some? ==>
      var (k, m) := FolderSpan(name).value;
      var f := FolderName(name).value;
      f == name[k..m] && |f| > 0 && FreeBetween(f, 0, |f|)
  {
    FolderSpanIsLeftmostMatch(name);
    if FolderSpan(name).Some? {
      var (k, m) := FolderSpan(name).value;
      assert PatternMatch(name, k, m);
      var f := name[k..m];
      forall i | 0 <= i < |f| ensures !IsSeparator(f[i]) {
        assert f[i] == name[k + i];
      }
    }
  }

  /** A name with no separator, or one ending in a separator, has no folder
      name. */
  lemma NoFolderName(name: string)
    requires FreeBetween(name, 0, |name|) || (|name| > 0 && IsSeparator(name[|name| - 1]))
    ensures FolderName(name) == None
  {
    FolderSpanIsLeftmostMatch(name);
  }

  /** The component's state and the annotation store it writes to. */
  class AppState {
    var pointCloud: Option<PointCloud>
    var imagePath: Option<string>
    var folderName: Option<string>
    var store: State

    /** The first render: nothing loaded and an empty store. */
    constructor()
      ensures pointCloud == None && imagePath == None && folderName == None
      ensures store == Initial()
    {
      pointCloud, imagePath, folderName := None, None, None;
      store := Initial();
    }

    /** The state `handleDataLoad(data)` leaves. A point cloud replaces the
        shown one and sets the folder name from its name; a non-empty image path
        replaces the image; a list of records is appended to the store in order
        without clearing it; anything else leaves the store. */
    twostate predicate DataApplied(data: DataLoad)
      reads this
    {
      (data.pointCloud.Some? ==>
         pointCloud == data.pointCloud && folderName == FolderName(data.pointCloud.value.name))
      && (data.pointCloud.None? ==> pointCloud == old(pointCloud) && folderName == old(folderName))
      && imagePath == (if data.imagePath.Some? && data.imagePath.value != "" then data.imagePath else old(imagePath))
      && (data.annotations.Records? ==>
            store == old(store).(annotations := old(store).annotations + data.annotations.list))
      && (!data.annotations.Records? ==> store == old(store))
    }

    /** `handleDataLoad` (lines 14-33). A value that is neither a list nor falsy
        makes `forEach` throw after the other fields are set: `threw` reports
        it, and the store is unchanged. */
    method HandleDataLoad(data: DataLoad) returns (threw: bool)
      modifies this
      ensures DataApplied(data)
      ensures threw <==> data.annotations.NotAList?
    {
      ghost var before := store;
      if data.pointCloud.Some? {
        pointCloud := data.pointCloud;
        folderName := FolderName(data.pointCloud.value.name);
      }
      if data.imagePath.Some? && data.imagePath.value != "" {
        imagePath := data.imagePath;
      }
      threw := false;
      match data.annotations
      case Records(list) =>
        ghost var shownCloud, shownImage, shownFolder := pointCloud, imagePath, folderName;
        var i := 0;
        while i < |list|
          invariant 0 <= i <= |list|
          invariant store.annotations == before.annotations + list[..i] && store.selected == before.selected
          invariant pointCloud == shownCloud && imagePath == shownImage && folderName == shownFolder
        {
          assert list[..i + 1] == list[..i] + [list[i]];
          store := Add(store, list[i]);
          i := i + 1;
        }
        assert list[..|list|] == list;
      case NotAList =>
        threw := true;
      case _ =>
    }

    /** A folder selection from the picker to this component: `onDataLoad` is
        `handleDataLoad` and runs inside the picker's `try`
        (src/components/FileUploader.tsx, lines 53-61), so the alert is raised
        when the picker alerts and also when `handleDataLoad` throws. The state
        changes made before the throw stay. */
    method SelectFolder(files: Option<seq<FolderFile>>, objectUrl: FolderFile -> string,
                        parse: seq<byte> -> ParseOutcome)
      returns (outcome: FolderOutcome, alerted: bool)
      modifies this
      ensures outcome == if files.None? then NoFiles else FolderSelection(files.value, objectUrl, parse)
      ensures alerted <==> outcome.Alerted? || (outcome.Delivered? && outcome.data.annotations.NotAList?)
      ensures outcome.Delivered? ==> DataApplied(outcome.data)
      ensures !outcome.Delivered? ==> unchanged(this)
    {
      outcome := FileUploader.HandleFolderSelect(files, objectUrl, parse);
      alerted := outcome.Alerted?;
      if outcome.Delivered? {
        var threw := HandleDataLoad(outcome.data);
        alerted := threw;
      }
    }
  }
}
