# A verified model of the point-cloud annotation tool

This project models the logic of a browser tool for annotating 3D point clouds, written in Dafny. Nine parts are covered:

- the binary PCD loader: header scan, keyword lines and the fixed-stride record loop;
- the normalization pass that fills the render buffers;
- the bounding-box editor: handle tables, the drag state machine, the plane-constrained centre update and the field write-backs;
- the annotation store;
- the annotation side panel;
- the annotation exchange document;
- the folder picker;
- the top-level load handler;
- the offline script that turns cluster labels into boxes.

Each source file becomes one module:

| module | models | form |
|---|---|---|
| `PcdLoader` | `src/utils/pointCloudLoader.ts` | methods with loops (header scan, record decode), proved against spec functions |
| `PointCloudViewer` | `src/components/PointCloudViewer.tsx` | methods filling two `array<real>` buffers, proved against spec functions |
| `BoundingBoxEditor` | `src/components/BoundingBoxEditor.tsx` | handle tables as functions; class `DragController` for the drag state |
| `AnnotationStore` | `src/hooks/useAnnotationStore.ts` | functions over `State(annotations, selected)` |
| `AnnotationPanel` | `src/components/AnnotationPanel.tsx` | functions |
| `FileIO` | `src/utils/fileIO.ts` | functions over a document datatype |
| `FileUploader` | `src/components/FileUploader.tsx` | method with the selection loop; function and method for the outcome of a selection |
| `App` | `src/App.tsx` | folder-name functions; class `AppState` whose methods apply loaded data and run a folder selection |
| `Clustering` | `src/clustering/generate_3d_bbox.py` | method looping over the label set |

Three shared modules support them:

- `Wrappers`: `Option` and `Result`.
- `Geometry`: vectors, axes and extents.
- `Text`: the JavaScript string operations used: `indexOf`, `split`, `trim`, `parseInt`, `Number`, `toLowerCase`, and decimal formatting.

Modelling choices:

- **Numbers.** Floating-point values are reals. A float32 read from the PCD payload is kept as its 32 little-endian bits (`Float32(bits)`), because its IEEE-754 value is never inspected by the loader.
- **Records.** An annotation record carries an `extras` map for JSON keys outside the five typed fields. This makes it expressible that export drops such keys and that spread-merges keep them.

Where the program's behaviour is surprising, the model follows the code:

- **Payload offset.** The offset is the index of the first `DATA`, not the byte after the `DATA` line. See Findings; the corrected loader is also modelled.
- **Missing `DATA`.** When `DATA` is missing from the 2048-byte window, the result is an empty cloud, not a malformed-header error.
- **Truncated payload.** A truncated payload surfaces only as the range error of the first read past the end.
- **Degenerate extents.** The normalizer has no zero-extent or `maxY == minY` guard. Its callers must supply a vertical spread, which `PointCloudViewer.Drawable` states; no default scale of 1 is applied.
- **`remove`.** It leaves the selection as it was, even when that id is removed.
- **Stale box.** When the selection finds no record, the editor's box effect returns before it removes the previous box, so a removed record's box and handles stay on screen. See Findings.
- **Loaded annotations.** They are appended to the store; there is no wholesale reset.
- **Patches.** A patch can carry an `id`, and `update` merges into every record with the id.
- **Import.** It returns the document's `annotations` member unvalidated. It rejects on a read error, on a syntax error, and on a JSON `null`, whose member access throws inside the `try`.
- **Folder picker.** A JSON syntax error in `annotations.json` makes the picker hang, because the parse throws in the reader's callback and not in the `try`. An error thrown by `onDataLoad` is caught by that `try` and raises the alert.

Nondeterministic inputs:

- The browser, the JSON parser and DBSCAN are inputs: a file list with contents, `parse` and `objectUrl` functions, and a label sequence.
- The ray–plane intersection point of a drag is also an input.

## Model

| member | source | states |
|---|---|---|
| `Text.IndexOf` | src/utils/pointCloudLoader.ts:30-36 | `indexOf`: -1 exactly when the pattern occurs nowhere, otherwise the position of its first occurrence |
| `Text.Split` | src/utils/pointCloudLoader.ts:31-39 | `split(sep)`: at least one piece, no piece holds the separator, and joining the pieces with it gives back the string |
| `Text.LastPieceFollowsLastSeparator` | src/components/FileUploader.tsx:29 | the last piece of a split is the whole suffix after the last separator, or the whole string when there is none |
| `Text.TrimStart` | src/utils/pointCloudLoader.ts:51 | removes exactly the leading white space that `parseInt` skips (what is left is a suffix, starting with non-space) |
| `Text.Trim` | src/utils/pointCloudLoader.ts:39 | `trim` is the slice of the text after its leading and before its trailing white space, with only white space outside it; when non-empty it begins and ends with other characters |
| `Text.TrimEmptyIffBlank` | src/utils/pointCloudLoader.ts:39 | trimming leaves nothing exactly when the text is all white space |
| `Text.TrimIdempotent` | src/utils/pointCloudLoader.ts:39 | trimming twice equals trimming once |
| `Text.ParseIntReadsLeadingDigits` | src/utils/pointCloudLoader.ts:51 | `parseInt` skips leading white space and reads the decimal digits up to the first non-digit, giving their value (without a `0x` prefix) |
| `Text.ParseIntAfterMinusNegates` | src/utils/pointCloudLoader.ts:51 | a `-` in front of a text that starts with a digit negates what `parseInt` reads, NaN staying NaN |
| `Text.ToNumber` | src/utils/pointCloudLoader.ts:45 | `Number` of an empty or all-white-space text is 0 |
| `Text.ToNumberRejectsStray` | src/utils/pointCloudLoader.ts:45 | a character that is neither white space, a decimal digit nor a sign makes `Number` NaN |
| `Text.DecimalRoundTrip` | src/utils/fileIO.ts:20 | `Number` of the decimal text of an integer gives the integer back |
| `Text.ParseIntDecimal` | src/utils/pointCloudLoader.ts:51 | `parseInt` of the decimal text of an integer gives the integer back |
| `Text.ToLower` | src/components/FileUploader.tsx:29 | `toLowerCase` keeps the length and maps each ASCII capital to its small letter, other characters unchanged |
| `Text.ToLowerIdempotent` | src/components/FileUploader.tsx:29 | lower-casing twice equals lower-casing once |
| `Geometry.ExtentOf` | src/clustering/generate_3d_bbox.py:20-21 | per-axis min/max of a non-empty point list: every point lies inside, and every bound is attained by some point |
| `Geometry.Midpoint` | src/clustering/generate_3d_bbox.py:22 | per-axis `(min + max) / 2` |
| `Geometry.Size` | src/clustering/generate_3d_bbox.py:23 | per-axis `max - min` |
| `PcdLoader.ReadFloat32LE` | src/utils/pointCloudLoader.ts:74 | a little-endian 32-bit word read at `k` fits in 32 bits |
| `PcdLoader.ReadFloat32LERecoversBytes` | src/utils/pointCloudLoader.ts:74 | the four bytes at `k` are recovered from the word in little-endian order, so the read loses nothing |
| `PcdLoader.Tokens` | src/utils/pointCloudLoader.ts:39 | `line.trim().split(' ')` has at least one token, so `parts[0]` always exists |
| `PcdLoader.ApplyLineSetsSlot` | src/utils/pointCloudLoader.ts:40-53 | a keyword line sets its field to a value that depends on the line alone, not on what was there before |
| `PcdLoader.ApplyLine` | src/utils/pointCloudLoader.ts:39-53 | a line can change only the field of its own keyword; a `SIZE` line gives one size per token after the keyword; a `POINTS` line without a count gives NaN |
| `PcdLoader.ApplyLineIgnoresOtherKeywords` | src/utils/pointCloudLoader.ts:40-53 | a line whose first token is none of `FIELDS`, `SIZE`, `TYPE`, `POINTS` leaves the header as it was |
| `PcdLoader.LastKeywordLineWins` | src/utils/pointCloudLoader.ts:38-54 | after all lines are applied, a keyword's field holds what its last line wrote: a later duplicate overrides an earlier one |
| `PcdLoader.AbsentKeywordKeepsValue` | src/utils/pointCloudLoader.ts:19-23 | a keyword with no line keeps its initial value (`vertexCount` 0, empty lists) |
| `PcdLoader.Window` | src/utils/pointCloudLoader.ts:26 | the scanned window is the first `min(2048, byteLength)` bytes |
| `PcdLoader.HeaderEndIsDataIndex` | src/utils/pointCloudLoader.ts:35-36 | on a header string ending in its first "DATA", `headerLength` is the index of that "DATA" |
| `PcdLoader.NoNewlineInData` | src/utils/pointCloudLoader.ts:36 | the newline search on "DATA" yields -1 |
| `PcdLoader.ParseHeaderLines` | src/utils/pointCloudLoader.ts:38-54 | the `forEach` over header lines computes exactly the fold of the line rule over the lines |
| `PcdLoader.StopAtFirstData` | src/utils/pointCloudLoader.ts:30-36 | the first byte whose addition makes the string contain "DATA" completes the first "DATA"; the offset and header computed there are the scan's |
| `PcdLoader.ScanHeader` | src/utils/pointCloudLoader.ts:18-57 | the byte loop returns the payload offset (index of the first "DATA", 0 if none) and the header from the lines up to that point |
| `PcdLoader.MissingDataReadsNothing` | src/utils/pointCloudLoader.ts:19-20 | without "DATA" in the window the offset and count stay 0 and the cloud is empty, not an error |
| `PcdLoader.PayloadOffsetAtDataBytes` | src/utils/pointCloudLoader.ts:35-36 | the offset is where the bytes `D A T A` begin and no earlier position holds them |
| `PcdLoader.FirstValueIsDataKeyword` | src/utils/pointCloudLoader.ts:64-74 | the first x read is the word 0x41544144, the bytes of "DATA" |
| `PcdLoader.ScanSeesOnlyWindow` | src/utils/pointCloudLoader.ts:26 | two buffers equal on their first 2048 bytes get the same offset and header: nothing beyond the window is scanned |
| `PcdLoader.PointsToRead` | src/utils/pointCloudLoader.ts:67 | the record loop runs `vertexCount` times when it is positive, and never when it is NaN or not positive |
| `PcdLoader.DecodedPoints` | src/utils/pointCloudLoader.ts:67-88 | exactly `n` points; point i component j is the word at `offset0 + 12*i + 4*j` |
| `PcdLoader.DecodeRecords` | src/utils/pointCloudLoader.ts:63-88 | the record loop succeeds exactly when all `count` records fit, then returns them in order; otherwise the range error, with nothing partial |
| `PcdLoader.LoadPcd` | src/utils/pointCloudLoader.ts:12-96 | `loadPCD` resolves exactly when the declared points fit after the offset, with the decoded points and the file's name; else rejects with the range error |
| `PcdLoader.Loaded` | src/utils/pointCloudLoader.ts:12-96 | over the bytes the reader delivered, the loader as written fails only with the range error, keeps the file's name, reads as many points as declared, and gives an empty cloud when the window has no "DATA" |
| `PcdLoader.IntendedOffsetEndsDataLine` | src/utils/pointCloudLoader.ts:35-36 | corrected offset: one past the first newline after the first "DATA", with no newline between; none exactly when "DATA" or that newline is missing from the window |
| `PcdLoader.AsWrittenOffsetPrecedesDataLine` | src/utils/pointCloudLoader.ts:35-36 | the offset as written lies at least 5 bytes before the intended one, on every input that has a DATA line |
| `PcdLoader.AsWrittenOffsetExample` | src/utils/pointCloudLoader.ts:35-36 | on "POINTS 1\nDATA\n" plus a zero record, the code reads from 9 (the word "DATA") instead of 14 |
| `PcdLoader.LoadPcdIntended` | src/utils/pointCloudLoader.ts:12-96 | the loader with the corrected offset: malformed header without a complete DATA line, else the same decode from the byte after it |
| `PointCloudViewer.Retained` | src/components/PointCloudViewer.tsx:109 | the filter keeps only points with \|y\| ≤ 1e10 |
| `PointCloudViewer.Bounds` | src/components/PointCloudViewer.tsx:104-117 | the bounds exist exactly when some point is retained |
| `PointCloudViewer.LongestSide` | src/components/PointCloudViewer.tsx:132 | `Math.max` of the three extents: no extent exceeds it and it equals one of them |
| `PointCloudViewer.RetainedAppend` | src/components/PointCloudViewer.tsx:141-143 | filtering distributes over concatenation |
| `PointCloudViewer.RetainedEmpty` | src/components/PointCloudViewer.tsx:141-143 | nothing is retained exactly when every point is an outlier |
| `PointCloudViewer.ComputeBounds` | src/components/PointCloudViewer.tsx:104-117 | the min/max `forEach` computes the extent of the retained points |
| `PointCloudViewer.BuildGeometry` | src/components/PointCloudViewer.tsx:103-162 | buffers of the original length; `validPointCount` is the number of retained points; the exposed prefixes are the scene positions and colours; nothing past them is written |
| `PointCloudViewer.FillBuffers` | src/components/PointCloudViewer.tsx:140-158 | the compaction loop writes the k-th retained point's position and colour at 3k..3k+2, in input order |
| `PointCloudViewer.PackAt` | src/components/PointCloudViewer.tsx:145-149 | entry k of the flat buffer sits at indices 3k..3k+2 |
| `PointCloudViewer.Normalized` | src/components/PointCloudViewer.tsx:125-149 | the centre of the bounds goes to the origin, and each coordinate keeps its side of the centre |
| `PointCloudViewer.NormalizedWithinScene` | src/components/PointCloudViewer.tsx:125-149 | `(raw - center) * 10 / maxExtent` of a point inside the extent is within [-5, 5] on every axis |
| `PointCloudViewer.ScenePositionsWithinCube` | src/components/PointCloudViewer.tsx:133-149 | every exposed position coordinate lies in [-5, 5] |
| `PointCloudViewer.HeightShare` | src/components/PointCloudViewer.tsx:152 | the normalized height lies in [0, 1]; 0 at the bottom and 1 at the top |
| `PointCloudViewer.HeightColor` | src/components/PointCloudViewer.tsx:152-155 | red and green add up to 1, blue is 0.5; the lowest height is pure red and the highest pure green |
| `PointCloudViewer.SceneColorAt` | src/components/PointCloudViewer.tsx:152-155 | each colour has green h in [0, 1], red 1 - h, blue 0.5; the lowest point is pure red, the highest pure green |
| `PointCloudViewer.OutlierChangesNothing` | src/components/PointCloudViewer.tsx:109-117 | inserting an outlier changes neither the retained points nor the bounds |
| `BoundingBoxEditor.HandlePositions` | src/components/BoundingBoxEditor.tsx:236-273 | the handle table has 8 entries in perspective and 4 in the other views |
| `BoundingBoxEditor.PerspectiveHandlesAreCorners` | src/components/BoundingBoxEditor.tsx:261-273 | the perspective handles are the 8 corners, x sign outermost, then y, then z, negative first |
| `BoundingBoxEditor.OrthoHandlesAreFlattenedCorners` | src/components/BoundingBoxEditor.tsx:237-260 | top, front and side handles are four corners with their view's normal coordinate set to 0, in the listed order |
| `BoundingBoxEditor.HandlesOnBox` | src/components/BoundingBoxEditor.tsx:236-273 | every handle lies within the half-dimensions, and on the view plane in the orthographic views |
| `BoundingBoxEditor.HandlesDistinct` | src/components/BoundingBoxEditor.tsx:236-273 | with positive dimensions, no two handles coincide |
| `BoundingBoxEditor.ShownHandles` | src/components/BoundingBoxEditor.tsx:204-300 | when the selection finds a record, the handles in the scene are that record's table; when it finds none, the early return leaves the previous run's handles in place |
| `BoundingBoxEditor.IntendedHandles` | src/components/BoundingBoxEditor.tsx:204-300 | the handles a run should leave: none exactly when the selection finds no record, otherwise that record's table |
| `BoundingBoxEditor.StaleHandlesAfterRemove` | src/components/BoundingBoxEditor.tsx:205 | after removing the selected record the lookup finds nothing, the shown handles stay as they were and non-empty, and the intended handles are none |
| `BoundingBoxEditor.ArrowLength` | src/components/BoundingBoxEditor.tsx:282 | `max(width, depth) / 2` |
| `BoundingBoxEditor.DragPlane` | src/components/BoundingBoxEditor.tsx:134-140 | no plane in perspective; otherwise the plane through the origin normal to the view's flat axis |
| `BoundingBoxEditor.DragCenter` | src/components/BoundingBoxEditor.tsx:158-168 | a drag overwrites the two in-plane centre coordinates with the intersection point's and keeps the one along the plane's normal; perspective keeps the centre |
| `BoundingBoxEditor.CenterPatch` | src/components/BoundingBoxEditor.tsx:171-176 | merged into any record, the patch sets its 3D box to the dragged record's box at the new centre and keeps every other field |
| `BoundingBoxEditor.DragController.constructor` | src/components/BoundingBoxEditor.tsx:129-140 | the controller starts idle: not dragging, no handle, no plane, and a listener that sees no plane |
| `BoundingBoxEditor.DragController.Rerender` | src/components/BoundingBoxEditor.tsx:186-201 | a render re-registers the listeners, which then see the current plane, only when the record changed; the drag state is kept |
| `BoundingBoxEditor.DragController.MouseDown` | src/components/BoundingBoxEditor.tsx:112-141 | any hit on the box's children starts a drag with that hit and the view's plane; no hit changes nothing |
| `BoundingBoxEditor.DragController.MouseMove` | src/components/BoundingBoxEditor.tsx:144-177 | while dragging with a plane, the store is updated with the dragged centre; otherwise it is left as it was |
| `BoundingBoxEditor.DragController.MouseMoveAsWritten` | src/components/BoundingBoxEditor.tsx:144-177 | the registered listener updates the store only when its own captured plane is set; otherwise the store is left as it was |
| `BoundingBoxEditor.DragController.MouseUp` | src/components/BoundingBoxEditor.tsx:179-183 | resets the flag, the handle and the plane; the registered listener is kept |
| `BoundingBoxEditor.StaleDragExample` | src/components/BoundingBoxEditor.tsx:144-201 | the first drag after mounting, with no change to the record, leaves the store as it was, while the intended move updates it and changes it when the centre moves |
| `BoundingBoxEditor.PerspectiveNeverDrags` | src/components/BoundingBoxEditor.tsx:134-145 | in perspective the plane stays unset, so mouse-move never updates |
| `BoundingBoxEditor.DragMovesOnlyTheCenter` | src/components/BoundingBoxEditor.tsx:171-176 | a drag write-back changes only the centre of the selected record's 3D box; id and every other field are kept |
| `BoundingBoxEditor.CenterEditSetsOneCoordinate` | src/components/BoundingBoxEditor.tsx:316-354 | an X/Y/Z field edit sets that one centre coordinate and keeps everything else |
| `BoundingBoxEditor.YawEditSetsRotation` | src/components/BoundingBoxEditor.tsx:364-370 | the yaw slider replaces only the rotation |
| `AnnotationStore.Initial` | src/hooks/useAnnotationStore.ts:34-35 | empty list, no selection |
| `AnnotationStore.Select` | src/hooks/useAnnotationStore.ts:36 | sets the selection without checking existence; the list is unchanged |
| `AnnotationStore.Merge` | src/hooks/useAnnotationStore.ts:39 | `{...ann, ...updated}`: every field the patch names takes the patch's value; the extra keys are the union of both, the patch's values winning |
| `AnnotationStore.Update` | src/hooks/useAnnotationStore.ts:37-41 | keeps the selection and the length; a patch without an id keeps every record's id |
| `AnnotationStore.Add` | src/hooks/useAnnotationStore.ts:42-44 | appends the record at the end without a duplicate check; the earlier records and the selection are kept |
| `AnnotationStore.Remove` | src/hooks/useAnnotationStore.ts:45-47 | keeps the selection; a record remains exactly when it was there and has another id |
| `AnnotationStore.UpdateMergesMatching` | src/hooks/useAnnotationStore.ts:37-41 | every record with the id becomes `{...record, ...patch}`; others unchanged; length, order and selection preserved |
| `AnnotationStore.MergeWhere` | src/hooks/useAnnotationStore.ts:38-40 | the `map` keeps the length and merges exactly the records with the id, position by position |
| `AnnotationStore.UpdateAbsentIsNoop` | src/hooks/useAnnotationStore.ts:37-41 | an update for an absent id leaves the state equal to before |
| `AnnotationStore.MergeKeepsAbsentKeys` | src/hooks/useAnnotationStore.ts:39 | a spread keeps every field the patch does not name |
| `AnnotationStore.MergeIdentityAndIdempotence` | src/hooks/useAnnotationStore.ts:39 | an empty patch changes nothing, and applying a patch twice equals applying it once |
| `AnnotationStore.DropIdAppend` | src/hooks/useAnnotationStore.ts:46 | the filter distributes over concatenation, so relative order is kept |
| `AnnotationStore.DropIdExactly` | src/hooks/useAnnotationStore.ts:45-47 | remove keeps exactly the records with other ids, never grows the list, and is a no-op for an absent id |
| `AnnotationStore.AddThenRemove` | src/hooks/useAnnotationStore.ts:42-47 | add then remove of the same id removes every record with it and keeps the selection, which then finds nothing if it was that id |
| `AnnotationStore.RemoveKeepsSelection` | src/hooks/useAnnotationStore.ts:45-47 | remove leaves the selection unchanged, even when it named the removed id |
| `AnnotationStore.FirstWithId` | src/components/AnnotationPanel.tsx:6-8 | the position of the first record with the id, or none when no record has it |
| `AnnotationStore.Find` | src/components/AnnotationPanel.tsx:5-8 | the shown record exists exactly when the selection names an existing id, and is the first record with that id |
| `AnnotationStore.FindUnique` | src/components/AnnotationPanel.tsx:6-8 | with unique ids, selecting a record's id finds that record |
| `AnnotationStore.FirstWithIdSameIds` | src/hooks/useAnnotationStore.ts:37-41 | lists with the same ids position by position find the same first match, so an update keeps what is found when it keeps ids |
| `AnnotationStore.UpdateSelected` | src/hooks/useAnnotationStore.ts:37-41 | updating the selected record with a patch that keeps its id makes the merged record the selected one |
| `AnnotationPanel.FullCopy` | src/components/AnnotationPanel.tsx:14-17 | a full-copy patch merged into any record gives the copied record, with the target's extras beneath |
| `AnnotationPanel.HandleChange` | src/components/AnnotationPanel.tsx:11-18 | an update exactly when a record is shown; it names that record's id, and its patch merged into the shown record gives the record with only the edited field changed, merged into any other record the same copy over that record's extra keys |
| `AnnotationPanel.EditSetsField` | src/components/AnnotationPanel.tsx:13-18 | after an edit, the shown record has the new value and all other fields, id included, as before; with none shown nothing changes |
| `AnnotationPanel.EditOverwritesSameId` | src/components/AnnotationPanel.tsx:13-18 | every other record with the same id is overwritten by the displayed copy, keeping only its own extra keys; others untouched |
| `FileIO.ProjectAll` | src/utils/fileIO.ts:7-13 | the export `map` keeps length and order and projects each record |
| `FileIO.ProjectKeepsTypedFields` | src/utils/fileIO.ts:8-12 | an exported entry carries exactly the five typed fields copied from the record; the projection is idempotent |
| `FileIO.ExportDocument` | src/utils/fileIO.ts:3-14 | the document's `frame_id` and `tracking_id` are the arguments, and its list holds one projected entry per record, in order |
| `FileIO.DownloadName` | src/utils/fileIO.ts:20 | `result_`, then the decimal text of the frame id, then `.json` |
| `FileIO.LoadAnnotations` | src/utils/fileIO.ts:24-38 | rejects exactly on a read error, a syntax error or a JSON `null`; otherwise resolves with the `annotations` member as it is, undefined for a value that is not an object or lacks the member |
| `FileIO.SaveThenLoad` | src/utils/fileIO.ts:3-30 | loading an exported document gives the projected records, and the records themselves when they had no extra keys |
| `FileIO.DownloadNameInjective` | src/utils/fileIO.ts:20 | `result_<frameId>.json` determines the frame id: different frames give different names |
| `FileUploader.FirstFitting` | src/components/FileUploader.tsx:31-34 | the position of the first file that fits a slot, or none when no file fits |
| `FileUploader.LastFitting` | src/components/FileUploader.tsx:35-36 | the position of the last file that fits a slot, or none when no file fits |
| `FileUploader.Extension` | src/components/FileUploader.tsx:29 | the extension holds no dot and is the lower-cased end of the name of its own length |
| `FileUploader.ExtensionFollowsLastDot` | src/components/FileUploader.tsx:29 | the extension is the lower-cased text after the last dot, or the whole lower-cased name without a dot |
| `FileUploader.ExtensionKindsDisjoint` | src/components/FileUploader.tsx:31-34 | no extension is both `pcd` and an image extension |
| `FileUploader.AnnotationFileNameIsNoOtherKind` | src/components/FileUploader.tsx:35 | `annotations.json` is neither a point cloud nor an image, so the annotation branch sees every file of that name |
| `FileUploader.SelectFiles` | src/components/FileUploader.tsx:23-38 | the loop picks the first `pcd`, the first bmp/jpg/jpeg/png, and the last file named exactly `annotations.json` |
| `FileUploader.SlotsExclusive` | src/components/FileUploader.tsx:31-37 | a file fits at most one slot |
| `FileUploader.FolderSelection` | src/components/FileUploader.tsx:19-62 | with files whose reads succeed: alert exactly when decoding the chosen point cloud, by the loader as written, fails; otherwise no settling when the annotation file has a JSON syntax error; otherwise the chosen cloud, image URL and the parsed document's `annotations` member, undefined without a file, for `null` or for a non-object |
| `FileUploader.HandleFolderSelect` | src/components/FileUploader.tsx:15-52 | returns at once without a file list; otherwise the outcome of the selection up to the call of `onDataLoad` |
| `FileUploader.LoneEmptyPointCloudIsDelivered` | src/components/FileUploader.tsx:27-57 | a folder holding only an empty `a.pcd` hands on an empty cloud named `a.pcd`, no image and no annotations |
| `App.LastSeparator` | src/App.tsx:21 | the index of the last `/` or `\`, with none after it, or -1 when there is none |
| `App.FolderSpanIsLeftmostMatch` | src/App.tsx:21 | the computed span is the leftmost match of `([^/\\]+)[/\\][^/\\]+$`; every match ends at the last separator and starts no earlier; no span means no match |
| `App.FolderName` | src/App.tsx:21-22 | a folder name is non-empty, free of separators, and ends right at the name's last separator |
| `App.FolderNameIsGroupOne` | src/App.tsx:21-22 | a folder name exists exactly when the pattern matches; it is group 1, non-empty and separator-free |
| `App.NoFolderName` | src/App.tsx:21-22 | a name with no separator, or ending in one, has no folder name |
| `App.AppState.constructor` | src/App.tsx:8-12 | nothing loaded and an empty store |
| `App.AppState.HandleDataLoad` | src/App.tsx:14-33 | a cloud replaces the shown one and sets the folder name; without one both are kept; a non-empty image path replaces the image; records are appended in order without a reset; it throws exactly for a truthy value that is not a list, after setting the other fields and leaving the store |
| `App.AppState.SelectFolder` | src/components/FileUploader.tsx:53-61 | `onDataLoad` runs inside the picker's `try`: the alert is raised exactly when the picker alerts or `handleDataLoad` throws; delivered data is applied; otherwise the state is unchanged |
| `Clustering.Members` | src/clustering/generate_3d_bbox.py:19 | `points[labels == label]`: non-empty exactly when the label occurs; holds every point with the label and only such points |
| `Clustering.ClusterAndGenerateBoxes` | src/clustering/generate_3d_bbox.py:13-31 | one box per distinct non-noise label, none for -1, each the box of that label's cluster |
| `Clustering.ClusterBox` | src/clustering/generate_3d_bbox.py:20-28 | yaw 0.0, and on every axis centre minus half the dimension is the cluster's minimum and centre plus half is its maximum |
| `Clustering.ClusterBoxEnclosesCluster` | src/clustering/generate_3d_bbox.py:20-28 | yaw 0.0, non-negative dimensions, every cluster point within centre ± dimensions/2, and a point on each face |
| `Clustering.BoxesEncloseTheirClusters` | src/clustering/generate_3d_bbox.py:19-23 | every point lies within the box of its own label's cluster |

## Left out

- IEEE-754 decoding of the float32 payload and float32/float64 rounding. Words are kept as bits, and the normalizer and the clustering run on reals; NaN and infinities are not modelled.
- `Number(...)` fraction, exponent, `0x`/`0o`/`0b` and `Infinity` forms: only white space around an optionally signed run of decimal digits is read, anything else is NaN. `parseInt` is modelled with its white-space skip, its sign, its `0x`/`0X` hexadecimal prefix and its stop at the first non-digit. `parseFloat` on the editor inputs is an input real.
- `toLowerCase` beyond ASCII letters.
- Asynchrony: `FileReader`, `Promise.all`, React state batching and re-rendering. Each handler is one atomic step.
- Side effects of the browser: `alert`, `console.log`, `URL.createObjectURL`, Blob and anchor download. Object URLs come from a parameter; the download name is modelled.
- JSON text. The exchange document is a datatype. A parsed value that is not an object, and record entries that are not annotation records, are not modelled.
- three.js rendering, raycasting and the ray–plane intersection. The hit and the intersection point are inputs. The arrow's direction (`cos`/`sin` of yaw) is left out; its length is modelled.
- React's render scheduling in the editor: when the effect re-registers the listeners is an input of `BoundingBoxEditor.DragController.Rerender` (whether the record changed), see Findings.
- DBSCAN, open3d file I/O and JSON output of the clustering script. The labels are an input.
- `BoundingBoxEditor.DragController.MouseDown`: when there is no annotation to edit, the handler returns before raycasting. The model treats "no selected record" as that case.
- Read errors of `FileReader`: the point-cloud loader rejects with `File reading failed` (src/utils/pointCloudLoader.ts:99), which makes the picker alert; the uploader's own reader has no error handler, so a read error there leaves the annotation promise pending. Neither is modelled: the bytes and texts read are inputs. `FileIO.LoadAnnotations` models the reader error of the import.
- `FileIO.DownloadName`: the frame id is an unbounded integer written in plain decimal digits. JavaScript writes numbers of magnitude 1e21 and above in exponent form, and is not exact beyond 2^53, so `FileIO.DownloadNameInjective` holds for the model's integers only.
- `App.AppState.HandleDataLoad`: a browser folder upload gives `File.name` without the directory, so in practice the folder name is found only when the name carries a path. The model takes the name as given.

## Findings

| source | as written | input that shows it | evidently intended | confidence | as-written member | corrected member |
|---|---|---|---|---|---|---|
| src/utils/pointCloudLoader.ts:35-36 | the scan stops as soon as the string ends in "DATA", so the newline search runs on "DATA" itself, yields -1, and the payload offset is the index of "DATA" | the bytes "POINTS 1\nDATA\n" followed by a 12-byte zero record: the code reads x from offset 9, the word 0x41544144 ("DATA"), instead of from 14 | the payload starts one byte past the newline that ends the DATA line | not executed | `PcdLoader.AsWrittenOffsetExample` | `PcdLoader.LoadPcdIntended` |
| src/components/BoundingBoxEditor.tsx:144-201 | the mouse-move listener is registered by an effect that depends only on the view and the record, so it tests the `dragPlane` of the render that registered it: `null` at mounting and after a mouse-up, and a drag moves nothing unless the record changes during it | mounting the top view with a record selected, pressing on a handle and moving the mouse: the store is left as it was | mouse-move tests the current drag plane and moves the centre | not executed | `BoundingBoxEditor.StaleDragExample` | `BoundingBoxEditor.DragController.MouseMove` |
| src/components/BoundingBoxEditor.tsx:204-210 | the box effect returns when the selection finds no record, before it removes the previous box from the scene | select a record and remove it (the selection is kept, so the lookup gives `undefined`): the removed record's box and handles stay on screen | the previous box is removed whenever no record is found | not executed | `BoundingBoxEditor.StaleHandlesAfterRemove` | `BoundingBoxEditor.IntendedHandles` |
