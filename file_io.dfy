/** The annotation exchange document (src/utils/fileIO.ts): what
    `saveAnnotationsToFile` writes, the download name it offers, and what
    `loadAnnotationsFromFile` hands back. JSON text is not modelled: the document
    is a value, and `JSON.parse` is either a syntax error or that value. */
module FileIO {
  import opened Wrappers
  import opened Text
  import opened AnnotationStore

  /** The `annotations` member of a parsed object: missing (`undefined`), a list
      of records, a falsy value (`null`, `false`, `0`, `""`) or some other
      value that is not a list. */
  datatype AnnotationsField = Absent | Records(list: seq<Annotation>) | Falsy | NotAList

  /** A parsed exchange document; a member that is missing is `None`. */
  datatype Document = Document(frameId: Option<int>, trackingId: Option<string>, annotations: AnnotationsField)

  /** The outcome of `JSON.parse` on the file's text: a syntax error, `null`,
      another value that is not an object (a number, string, boolean or list,
      whose `annotations` member is `undefined`), or an object. */
  datatype ParseOutcome = SyntaxError | NullValue | NonObject | Parsed(doc: Document)

  /** What the `FileReader` delivers: an error event, or the file's text, parsed. */
  datatype ReadOutcome = ReadError | ReadText(parsed: ParseOutcome)

  /** Why a load rejects: the reader's error event, a syntax error, or the
      `TypeError` of reading `annotations` from `null`. */
  datatype LoadFailure = ReadFailure | ParseFailure | NullDocument

  /** The object literal of the export `map`: the five typed keys copied, any
      other key dropped. */
  function Project(a: Annotation): Annotation
  {
    Annotation(a.id, a.cls, a.bbox2d, a.bbox3d, a.trackingId, map[])
  }

  function ProjectAll(anns: seq<Annotation>): (out: seq<Annotation>)
    ensures |out| == |anns|
    ensures forall i :: 0 <= i < |anns| ==> out[i] == Project(anns[i])
  {
    seq(|anns|, i requires 0 <= i < |anns| => Project(anns[i]))
  }

  /** The document `saveAnnotationsToFile` serialises (lines 3-14): the two
      arguments and one projected entry per record, in order. */
  function ExportDocument(frameId: int, trackingId: string, anns: seq<Annotation>): (d: Document)
    ensures d.frameId == Some(frameId) && d.trackingId == Some(trackingId)
    ensures d.annotations.Records? && |d.annotations.list| == |anns|
    ensures forall i :: 0 <= i < |anns| ==> d.annotations.list[i] == Project(anns[i])
  {
    Document(Some(frameId), Some(trackingId), Records(ProjectAll(anns)))
  }

  /** `result_${frameId}.json` (line 20): the frame id's decimal text between a
      fixed prefix and a fixed suffix. */
  function DownloadName(frameId: int): (name: string)
    ensures |name| == |Decimal(frameId)| + 12
    ensures name[..7] == "result_" && name[|name| - 5..] == ".json"
    ensures name[7..|name| - 5] == Decimal(frameId)
  {
    "result_" + Decimal(frameId) + ".json"
  }

  /** `loadAnnotationsFromFile` (lines 24-38): the document's `annotations`
      member as it is, unchecked; `undefined` for a value that is not an object.
      It rejects on the reader's error event, on a syntax error, and on `null`,
      whose member access throws inside the `try`. */
  function LoadAnnotations(read: ReadOutcome): (r: Result<AnnotationsField, LoadFailure>)
    ensures r.Err? <==> read.ReadError? || read.parsed.SyntaxError? || read.parsed.NullValue?
    ensures r == Err(ReadFailure) <==> read.ReadError?
    ensures r == Err(NullDocument) <==> read.ReadText? && read.parsed.NullValue?
    ensures read.ReadText? && read.parsed.Parsed? ==> r == Ok(read.parsed.doc.annotations)
    ensures read.ReadText? && read.parsed.NonObject? ==> r == Ok(Absent)
  {
    match read
    case ReadError => Err(ReadFailure)
    case ReadText(parsed) =>
      match parsed
      case SyntaxError => Err(ParseFailure)
      case NullValue => Err(NullDocument)
      case NonObject => Ok(Absent)
      case Parsed(doc) => Ok(doc.annotations)
  }

  /** The projection keeps the five typed fields and drops only the extra keys;
      applied twice it is applied once, and a record without extra keys is its
      own projection. */
  lemma ProjectKeepsTypedFields(a: Annotation)
    ensures Project(a).(extras := a.extras) == a
    ensures Project(Project(a)) == Project(a)
    ensures a.extras == map[] ==> Project(a) == a
  {
  }

  /** Loading an exported document gives back the projected records; records
      without extra keys come back unchanged. */
  lemma SaveThenLoad(frameId: int, trackingId: string, anns: seq<Annotation>)
    ensures LoadAnnotations(ReadText(Parsed(ExportDocument(frameId, trackingId, anns)))) == Ok(Records(ProjectAll(anns)))
    ensures (forall i :: 0 <= i < |anns| ==> anns[i].extras == map[]) ==>
      LoadAnnotations(ReadText(Parsed(ExportDocument(frameId, trackingId, anns)))) == Ok(Records(anns))
  {
    if forall i :: 0 <= i < |anns| ==> anns[i].extras == map[] {
      assert ProjectAll(anns) == anns;
    }
  }

  /** Different frames get different download names: the frame id can be read
      back from the name. */
  lemma {:induction false} DownloadNameInjective(f: int, g: int)
    requires DownloadName(f) == DownloadName(g)
    ensures f == g
  {
    DecimalRoundTrip(f);
    DecimalRoundTrip(g);
  }
}
