/** The PCD loader (src/utils/pointCloudLoader.ts, `PointCloudLoader.loadPCD`):
    a byte-by-byte header scan over at most the first 2048 bytes that stops at the
    first "DATA", then a loop reading `vertexCount` records of three little-endian
    float32 values, 12 bytes apart. Modelled as the code is written: the payload
    offset is the index of the "D" of "DATA" (see Findings in README.md). */
module PcdLoader {
  import opened Wrappers
  import opened Text

  /** How many bytes the header scan may look at. */
  const HeaderWindow := 2048

  /** Bytes the decoder advances per point: three float32 values. */
  const RecordStride := 12

  /** A float32 read by `getFloat32(k, true)`, kept as its 32 bits; turning the
      bits into a number (IEEE-754) is not part of this model. */
  datatype Float32 = Float32(bits: nat)

  datatype Point = Point(x: Float32, y: Float32, z: Float32)

  datatype PointCloud = PointCloud(points: seq<Point>, name: string)

  /** The input file: its name and its contents. */
  datatype PcdFile = PcdFile(name: string, bytes: seq<byte>)

  /** `RangeError` is what `DataView.getFloat32` throws past the end of the
      buffer; `MalformedHeader` is used only by the corrected loader. */
  datatype LoadError = RangeError | MalformedHeader

  /** `view.getFloat32(k, true)`: four bytes, least significant first. */
  function ReadFloat32LE(bytes: seq<byte>, k: nat): (f: Float32)
    requires k + 4 <= |bytes|
    ensures f.bits < 0x1_0000_0000
  {
    var b0, b1, b2, b3 := bytes[k] as nat, bytes[k + 1] as nat, bytes[k + 2] as nat, bytes[k + 3] as nat;
    Float32(b0 + 0x100 * (b1 + 0x100 * (b2 + 0x100 * b3)))
  }

  /** The little-endian reading loses nothing: each byte can be recovered from
      the 32 bits. */
  lemma ReadFloat32LERecoversBytes(bytes: seq<byte>, k: nat)
    requires k + 4 <= |bytes|
    ensures var b := ReadFloat32LE(bytes, k).bits;
      b % 0x100 == bytes[k] as nat && (b / 0x100) % 0x100 == bytes[k + 1] as nat
      && ((b / 0x100) / 0x100) % 0x100 == bytes[k + 2] as nat && ((b / 0x100) / 0x100) / 0x100 == bytes[k + 3] as nat
  {
    var b0, b1, b2, b3 := bytes[k] as nat, bytes[k + 1] as nat, bytes[k + 2] as nat, bytes[k + 3] as nat;
    DivModByte(b0, b1 + 0x100 * (b2 + 0x100 * b3));
    DivModByte(b1, b2 + 0x100 * b3);
    DivModByte(b2, b3);
  }

  lemma DivModByte(lo: nat, hi: nat)
    requires lo < 0x100
    ensures (lo + 0x100 * hi) % 0x100 == lo && (lo + 0x100 * hi) / 0x100 == hi
  {
  }

  // ------------------------------------------------------------ header lines

  /** The header keywords the scan records; `sizes` holds `Number` of each
      token (`None` is NaN) and `vertexCount` the `parseInt` of the POINTS token. */
  datatype Header = Header(fields: seq<string>, sizes: seq<Option<int>>, types: seq<string>, vertexCount: Option<int>)

  /** The values before any line is parsed (`vertexCount` starts at 0). */
  const InitialHeader := Header([], [], [], Some(0))

  /** `line.trim().split(' ')`. */
  function Tokens(line: string): (parts: seq<string>)
    ensures |parts| >= 1
  {
    Split(Trim(line), ' ')
  }

  function Keyword(line: string): string
  {
    Tokens(line)[0]
  }

  /** The keywords the `switch` acts on. */
  const HeaderKeywords: set<string> := {"FIELDS", "SIZE", "TYPE", "POINTS"}

  /** One turn of the `switch` on the first token: only the slot of the line's
      keyword can change, `SIZE` reads one number per token after the keyword,
      and a `POINTS` line without a count gives NaN (`parseInt(undefined)`). */
  function ApplyLine(h: Header, line: string): (r: Header)
    ensures forall kw :: kw != Keyword(line) ==> SameSlot(r, h, kw)
    ensures Keyword(line) == "SIZE" ==> |r.sizes| == |Tokens(line)| - 1
    ensures Keyword(line) == "POINTS" && |Tokens(line)| == 1 ==> r.vertexCount == None
  {
    var parts := Tokens(line);
    if parts[0] == "FIELDS" then h.(fields := parts[1..])
    else if parts[0] == "SIZE" then h.(sizes := seq(|parts| - 1, i requires 0 <= i < |parts| - 1 => ToNumber(parts[i + 1])))
    else if parts[0] == "TYPE" then h.(types := parts[1..])
    else if parts[0] == "POINTS" then h.(vertexCount := if |parts| > 1 then ParseInt(parts[1]) else None)
    else h
  }

  /** The `forEach` over the header lines, in order. */
  function ApplyLines(h: Header, lines: seq<string>): Header
    decreases |lines|
  {
    if lines == [] then h else ApplyLine(ApplyLines(h, lines[..|lines| - 1]), lines[|lines| - 1])
  }

  /** The part of the header that a line with keyword `kw` sets. */
  predicate SameSlot(a: Header, b: Header, kw: string)
  {
    if kw == "FIELDS" then a.fields == b.fields
    else if kw == "SIZE" then a.sizes == b.sizes
    else if kw == "TYPE" then a.types == b.types
    else if kw == "POINTS" then a.vertexCount == b.vertexCount
    else true
  }

  /** A line whose first token is none of the four keywords changes nothing. */
  lemma ApplyLineIgnoresOtherKeywords(h: Header, line: string)
    requires Keyword(line) !in HeaderKeywords
    ensures ApplyLine(h, line) == h
  {
    var r := ApplyLine(h, line);
    assert SameSlot(r, h, "FIELDS") && SameSlot(r, h, "SIZE");
    assert SameSlot(r, h, "TYPE") && SameSlot(r, h, "POINTS");
  }

  /** A line sets its keyword's value whatever came before. */
  lemma ApplyLineSetsSlot(h: Header, g: Header, line: string)
    ensures SameSlot(ApplyLine(h, line), ApplyLine(g, line), Keyword(line))
  {
  }

  /** The last line with a given keyword decides that keyword's value: later
      lines with other keywords leave it, and what came before is overridden. */
  lemma {:induction false} LastKeywordLineWins(h: Header, lines: seq<string>, k: nat)
    requires k < |lines|
    requires forall j :: k < j < |lines| ==> Keyword(lines[j]) != Keyword(lines[k])
    ensures SameSlot(ApplyLines(h, lines), ApplyLine(h, lines[k]), Keyword(lines[k]))
    decreases |lines|
  {
    var n := |lines| - 1;
    var before := lines[..n];
    if k == n {
      ApplyLineSetsSlot(ApplyLines(h, before), h, lines[k]);
    } else {
      assert before[k] == lines[k];
      assert forall j :: k < j < |before| ==> before[j] == lines[j];
      LastKeywordLineWins(h, before, k);
      assert SameSlot(ApplyLine(ApplyLines(h, before), lines[n]), ApplyLines(h, before), Keyword(lines[k]));
    }
  }

  /** A keyword no line carries keeps its starting value. */
  lemma {:induction false} AbsentKeywordKeepsValue(h: Header, lines: seq<string>, kw: string)
    requires forall j :: 0 <= j < |lines| ==> Keyword(lines[j]) != kw
    ensures SameSlot(ApplyLines(h, lines), h, kw)
    decreases |lines|
  {
    if lines != [] {
      var n := |lines| - 1;
      var before := lines[..n];
      assert forall j :: 0 <= j < n ==> before[j] == lines[j];
      AbsentKeywordKeepsValue(h, before, kw);
      var g := ApplyLines(h, before);
      assert SameSlot(ApplyLine(g, lines[n]), g, kw);
      assert ApplyLines(h, lines) == ApplyLine(g, lines[n]);
    }
  }

  // ------------------------------------------------------------ header scan

  /** The header text the scan can see: `String.fromCharCode` of each of the
      first `min(2048, byteLength)` bytes. */
  function Window(bytes: seq<byte>): (w: string)
    ensures |w| <= HeaderWindow && |w| <= |bytes|
    ensures |w| == if |bytes| < HeaderWindow then |bytes| else HeaderWindow
  {
    Latin1(bytes[..if |bytes| < HeaderWindow then |bytes| else HeaderWindow])
  }

  /** Lines 35-36 as written: the index of "DATA", plus the index of the first
      newline in the text from there on, plus one. */
  function HeaderEnd(headerStr: string): int
    requires Contains(headerStr, "DATA")
  {
    var k := IndexOf(headerStr, "DATA");
    k + IndexOf(headerStr[k..], "\n") + 1
  }

  /** The scan stops as soon as its text ends in the first "DATA", so the newline
      search sees just "DATA", yields -1, and the header length is the index of
      the "D". */
  lemma HeaderEndIsDataIndex(headerStr: string)
    requires Contains(headerStr, "DATA") && IndexOf(headerStr, "DATA") == |headerStr| - 4
    ensures HeaderEnd(headerStr) == |headerStr| - 4
  {
    var k := IndexOf(headerStr, "DATA");
    assert headerStr[k..] == "DATA";
    NoNewlineInData();
  }

  lemma NoNewlineInData()
    ensures IndexOf("DATA", "\n") == -1
  {
    forall k | 0 <= k < 4 ensures !MatchAt("DATA", "\n", k) {
      assert "DATA"[k..k + 1] == ["DATA"[k]];
    }
  }

  /** The header length the code computes: the index of the first "DATA" in the
      window, or 0 when the window holds none. */
  function PayloadOffset(bytes: seq<byte>): nat
  {
    OffsetIn(Window(bytes))
  }

  function OffsetIn(w: string): nat
  {
    var k := IndexOf(w, "DATA");
    if k < 0 then 0 else k
  }

  /** The header the code computes: every line of the text up to the end of the
      first "DATA" applied once, in order; the initial values when there is none. */
  function ParsedHeader(bytes: seq<byte>): Header
  {
    HeaderIn(Window(bytes))
  }

  function HeaderIn(w: string): Header
  {
    var k := IndexOf(w, "DATA");
    if k < 0 then InitialHeader else ApplyLines(InitialHeader, Split(w[..k + 4], '\n'))
  }

  /** The `forEach` over the header lines (lines 39-56). */
  method ParseHeaderLines(lines: seq<string>) returns (header: Header)
    ensures header == ApplyLines(InitialHeader, lines)
  {
    header := InitialHeader;
    var k := 0;
    while k < |lines|
      invariant 0 <= k <= |lines|
      invariant header == ApplyLines(InitialHeader, lines[..k])
    {
      assert lines[..k + 1][..k] == lines[..k];
      header := ApplyLine(header, lines[k]);
      k := k + 1;
    }
    assert lines[..k] == lines;
  }

  /** When the text of the first `i + 1` window characters is the first to hold
      "DATA", it ends with that "DATA", which is the window's first. */
  lemma StopAtFirstData(bytes: seq<byte>, i: nat)
    requires i < |Window(bytes)|
    requires !Contains(Window(bytes)[..i], "DATA") && Contains(Window(bytes)[..i + 1], "DATA")
    ensures IndexOf(Window(bytes)[..i + 1], "DATA") == i - 3 == IndexOf(Window(bytes), "DATA")
    ensures HeaderEnd(Window(bytes)[..i + 1]) == PayloadOffset(bytes)
    ensures ParsedHeader(bytes) == ApplyLines(InitialHeader, Split(Window(bytes)[..i + 1], '\n'))
  {
    var w := Window(bytes);
    assert w[..i + 1] == w[..i] + [w[i]];
    IndexOfFirstAppearance(w[..i], w[i], "DATA");
    assert w == w[..i + 1] + w[i + 1..];
    IndexOfAppend(w[..i + 1], w[i + 1..], "DATA");
    HeaderEndIsDataIndex(w[..i + 1]);
    assert w[..i + 1] == w[..IndexOf(w, "DATA") + 4];
  }

  /** The header loop (lines 18-57). */
  method ScanHeader(bytes: seq<byte>) returns (headerLength: nat, header: Header)
    ensures headerLength == PayloadOffset(bytes)
    ensures header == ParsedHeader(bytes)
  {
    ghost var w := Window(bytes);
    var limit := if |bytes| < HeaderWindow then |bytes| else HeaderWindow;
    var headerStr := "";
    var i := 0;
    while i < limit
      invariant 0 <= i <= limit == |w|
      invariant headerStr == w[..i]
      invariant !Contains(headerStr, "DATA")
    {
      headerStr := headerStr + [(bytes[i] as int) as char];
      assert headerStr == w[..i + 1];
      if Contains(headerStr, "DATA") {
        StopAtFirstData(bytes, i);
        headerLength := HeaderEnd(headerStr);
        header := ParseHeaderLines(Split(headerStr, '\n'));
        return;
      }
      i := i + 1;
    }
    assert headerStr == w;
    headerLength, header := 0, InitialHeader;
  }

  /** When the window has no "DATA" the offset is 0 and the point count keeps
      its initial 0, so the cloud read is empty rather than an error. */
  lemma MissingDataReadsNothing(bytes: seq<byte>)
    requires !Contains(Window(bytes), "DATA")
    ensures PayloadOffset(bytes) == 0 && PointsToRead(ParsedHeader(bytes)) == 0
    ensures DecodedPoints(bytes, PayloadOffset(bytes), PointsToRead(ParsedHeader(bytes))) == []
  {
  }

  /** The four bytes from `j` spell "DATA". */
  predicate DataBytesAt(bytes: seq<byte>, j: int)
  {
    0 <= j && j + 4 <= |bytes| && bytes[j] == 0x44 && bytes[j + 1] == 0x41 && bytes[j + 2] == 0x54 && bytes[j + 3] == 0x41
  }

  lemma DataBytesMatch(bytes: seq<byte>, j: int)
    requires 0 <= j && j + 4 <= |Window(bytes)|
    ensures DataBytesAt(bytes, j) <==> MatchAt(Window(bytes), "DATA", j)
  {
    var w := Window(bytes);
    if DataBytesAt(bytes, j) {
      assert w[j..j + 4] == "DATA";
    }
    if MatchAt(w, "DATA", j) {
      assert w[j..j + 4][0] == w[j] && w[j..j + 4][1] == w[j + 1];
      assert w[j..j + 4][2] == w[j + 2] && w[j..j + 4][3] == w[j + 3];
    }
  }

  /** The payload offset is where the first four bytes spelling "DATA" begin. */
  lemma PayloadOffsetAtDataBytes(bytes: seq<byte>)
    requires Contains(Window(bytes), "DATA")
    ensures DataBytesAt(bytes, PayloadOffset(bytes))
    ensures forall j :: 0 <= j < PayloadOffset(bytes) ==> !DataBytesAt(bytes, j)
  {
    var off := PayloadOffset(bytes);
    DataBytesMatch(bytes, off);
    forall j | 0 <= j < off ensures !DataBytesAt(bytes, j) {
      DataBytesMatch(bytes, j);
    }
  }

  /** As written, the first value decoded is the keyword itself: its bits are the
      four bytes "DATA" (0x41544144). */
  lemma FirstValueIsDataKeyword(bytes: seq<byte>)
    requires Contains(Window(bytes), "DATA")
    ensures ReadFloat32LE(bytes, PayloadOffset(bytes)).bits == 0x4154_4144
  {
    PayloadOffsetAtDataBytes(bytes);
  }

  /** The scan's outcome depends on the first `min(2048, byteLength)` bytes only. */
  lemma ScanSeesOnlyWindow(a: seq<byte>, b: seq<byte>)
    requires |a| >= HeaderWindow && |b| >= HeaderWindow && a[..HeaderWindow] == b[..HeaderWindow]
    ensures PayloadOffset(a) == PayloadOffset(b) && ParsedHeader(a) == ParsedHeader(b)
  {
    WindowOfPrefix(a, b);
  }

  lemma WindowOfPrefix(a: seq<byte>, b: seq<byte>)
    requires |a| >= HeaderWindow && |b| >= HeaderWindow && a[..HeaderWindow] == b[..HeaderWindow]
    ensures Window(a) == Window(b)
  {
  }

  // ------------------------------------------------------------ record loop

  /** How many times `for (i = 0; i < vertexCount; i++)` runs: the test
      `i < vertexCount` holds for `i` from 0 to `vertexCount - 1`, and for none
      when the count is NaN (every comparison with NaN is false) or not
      positive. */
  function PointsToRead(h: Header): (n: nat)
    ensures n > 0 ==> h.vertexCount == Some(n)
    ensures n == 0 ==> h.vertexCount.None? || h.vertexCount.value <= 0
  {
    if h.vertexCount.Some? && h.vertexCount.value > 0 then h.vertexCount.value else 0
  }

  /** The points read from `offset0`: point `i`, component `j`, at
      `offset0 + 12 * i + 4 * j`. */
  function DecodedPoints(bytes: seq<byte>, offset0: nat, n: nat): (ps: seq<Point>)
    requires n == 0 || offset0 + RecordStride * n <= |bytes|
    ensures |ps| == n
  {
    seq(n, i requires 0 <= i < n =>
      Point(ReadFloat32LE(bytes, offset0 + RecordStride * i),
            ReadFloat32LE(bytes, offset0 + RecordStride * i + 4),
            ReadFloat32LE(bytes, offset0 + RecordStride * i + 8)))
  }

  /** The record loop (lines 63-88): `count` points in order, or the `RangeError`
      of the first read that would pass the end of the buffer, with nothing
      partial returned. */
  method DecodeRecords(bytes: seq<byte>, offset0: nat, count: nat) returns (r: Result<seq<Point>, LoadError>)
    ensures r.Ok? <==> count == 0 || offset0 + RecordStride * count <= |bytes|
    ensures r.Ok? ==> r.value == DecodedPoints(bytes, offset0, count)
    ensures r.Err? ==> r.error == RangeError
  {
    var points: seq<Point> := [];
    var offset := offset0;
    var i := 0;
    while i < count
      invariant 0 <= i <= count
      invariant offset == offset0 + RecordStride * i
      invariant i > 0 ==> offset <= |bytes|
      invariant points == DecodedPoints(bytes, offset0, i)
    {
      var position: seq<Float32> := [];
      var j := 0;
      while j < 3
        invariant 0 <= j <= 3 && |position| == j
        invariant j > 0 ==> offset + 4 * j <= |bytes|
        invariant forall m :: 0 <= m < j ==> offset + 4 * m + 4 <= |bytes| && position[m] == ReadFloat32LE(bytes, offset + 4 * m)
      {
        if offset + j * 4 + 4 > |bytes| {
          return Err(RangeError);
        }
        position := position + [ReadFloat32LE(bytes, offset + j * 4)];
        j := j + 1;
      }
      points := points + [Point(position[0], position[1], position[2])];
      assert points == DecodedPoints(bytes, offset0, i + 1);
      offset := offset + RecordStride;
      i := i + 1;
    }
    return Ok(points);
  }

  /** What `loadPCD(file)` settles with: the points read from `off` when all of
      them fit in the buffer, else the range error. */
  function LoadedFrom(file: PcdFile, off: nat): Result<PointCloud, LoadError>
  {
    var n := PointsToRead(ParsedHeader(file.bytes));
    if n == 0 || off + RecordStride * n <= |file.bytes|
    then Ok(PointCloud(DecodedPoints(file.bytes, off, n), file.name))
    else Err(RangeError)
  }

  /** The loader as written, reading from the index of "DATA": it fails only
      with the range error; it keeps the file's name and reads as many points as
      the header declares; and a window without "DATA" gives an empty cloud,
      whatever the file holds. */
  function Loaded(file: PcdFile): (r: Result<PointCloud, LoadError>)
    ensures r.Err? ==> r.error == RangeError
    ensures r.Ok? ==> r.value.name == file.name && |r.value.points| == PointsToRead(ParsedHeader(file.bytes))
    ensures !Contains(Window(file.bytes), "DATA") ==> r == Ok(PointCloud([], file.name))
  {
    if Contains(Window(file.bytes), "DATA") then LoadedFrom(file, PayloadOffset(file.bytes))
    else
      MissingDataReadsNothing(file.bytes);
      LoadedFrom(file, PayloadOffset(file.bytes))
  }

  /** `loadPCD(file)`: resolves with the decoded points and the file's name, or
      rejects when a read passes the end of the buffer. */
  method LoadPcd(file: PcdFile) returns (r: Result<PointCloud, LoadError>)
    ensures var off := PayloadOffset(file.bytes);
      var n := PointsToRead(ParsedHeader(file.bytes));
      (r.Ok? <==> n == 0 || off + RecordStride * n <= |file.bytes|)
      && (r.Ok? ==> r.value == PointCloud(DecodedPoints(file.bytes, off, n), file.name))
      && (r.Err? ==> r.error == RangeError)
    ensures r == Loaded(file)
  {
    var headerLength, header := ScanHeader(file.bytes);
    var points := DecodeRecords(file.bytes, headerLength, PointsToRead(header));
    if points.Err? {
      return Err(points.error);
    }
    return Ok(PointCloud(points.value, file.name));
  }

  // ------------------------------------------------------------ corrected offset

  /** The intended payload offset: the byte after the newline that ends the line
      holding the first "DATA"; nothing when there is no "DATA" or that line has
      no newline within the window. */
  function IntendedPayloadOffset(bytes: seq<byte>): Option<nat>
  {
    IntendedOffsetIn(Window(bytes))
  }

  function IntendedOffsetIn(w: string): Option<nat>
  {
    var k := IndexOf(w, "DATA");
    if k < 0 then None
    else
      var n := IndexOf(w[k..], "\n");
      if n < 0 then None else Some(k + n + 1)
  }

  /** The text from `k` starts with "DATA" and runs to a newline at `e - 1`, the
      first after `k`. */
  ghost predicate DataLineEndsAt(w: string, k: int, e: int)
  {
    0 <= k && k + 4 < e <= |w| && w[k..k + 4] == "DATA" && w[e - 1] == '\n'
    && forall j :: k <= j < e - 1 ==> w[j] != '\n'
  }

  /** The corrected offset lies one past the first newline after the first
      "DATA", beyond the keyword itself; it is missing exactly when "DATA" or
      that newline is missing from the window. */
  lemma IntendedOffsetEndsDataLine(w: string)
    ensures IntendedOffsetIn(w).Some? ==> DataLineEndsAt(w, IndexOf(w, "DATA"), IntendedOffsetIn(w).value)
    ensures IntendedOffsetIn(w).None? <==>
      !Contains(w, "DATA") || !Contains(w[IndexOf(w, "DATA")..], "\n")
  {
    var k := IndexOf(w, "DATA");
    if k >= 0 {
      var n := IndexOf(w[k..], "\n");
      if n >= 0 {
        NewlineAfterData(w, k, n);
        assert DataLineEndsAt(w, k, k + n + 1);
      }
    }
  }

  /** The first newline after a "DATA" lies past its last letter, and no other
      newline comes between. */
  lemma NewlineAfterData(w: string, k: nat, n: int)
    requires k + 4 <= |w| && w[k..k + 4] == "DATA" && n == IndexOf(w[k..], "\n") && n >= 0
    ensures 4 <= n && k + n < |w| && w[k + n] == '\n'
    ensures forall j :: k <= j < k + n ==> w[j] != '\n'
  {
    var t := w[k..];
    assert t[n..n + 1] == "\n";
    assert t[n] == '\n';
    forall j | k <= j < k + n ensures w[j] != '\n' {
      assert !MatchAt(t, "\n", j - k);
      assert t[j - k..j - k + 1] == [w[j]];
    }
  }

  /** Whenever a DATA line is complete, the offset as written lies at least five
      bytes (the keyword and its newline) before the intended one: the two
      never agree. */
  lemma AsWrittenOffsetPrecedesDataLine(bytes: seq<byte>)
    requires IntendedPayloadOffset(bytes).Some?
    ensures PayloadOffset(bytes) + 5 <= IntendedPayloadOffset(bytes).value
  {
    IntendedOffsetEndsDataLine(Window(bytes));
  }

  /** "POINTS 1", newline, "DATA", newline, then twelve zero bytes. */
  const ExampleBytes: seq<byte> := [0x50, 0x4F, 0x49, 0x4E, 0x54, 0x53, 0x20, 0x31, 0x0A, 0x44, 0x41, 0x54, 0x41, 0x0A]
                                    + [0, 0, 0, 0, 0, 0, 0, 0, 0, 0, 0, 0]

  /** On that file the code reads its one point from byte 9, so its x value has
      the bits of "DATA", where the point's bytes start at byte 14 and are all 0. */
  lemma AsWrittenOffsetExample()
    ensures PayloadOffset(ExampleBytes) == 9
    ensures IntendedPayloadOffset(ExampleBytes) == Some(14)
    ensures ReadFloat32LE(ExampleBytes, PayloadOffset(ExampleBytes)).bits == 0x4154_4144
    ensures ReadFloat32LE(ExampleBytes, 14).bits == 0
  {
    ExampleDataAt9();
    ExampleNewlineAfterData();
  }

  lemma ExampleDataAt9()
    ensures IndexOf(Window(ExampleBytes), "DATA") == 9
  {
    var b := ExampleBytes;
    var w := Window(b);
    assert w == Latin1(b);
    forall j | 0 <= j < 9 ensures !MatchAt(w, "DATA", j) {
      assert w[j..j + 4][0] == w[j] != 'D';
    }
    assert w[9..13] == "DATA";
    assert MatchAt(w, "DATA", 9);
  }

  lemma ExampleNewlineAfterData()
    ensures IndexOf(Window(ExampleBytes)[9..], "\n") == 4
  {
    var t := Window(ExampleBytes)[9..];
    assert |t| == 17;
    forall j | 0 <= j < 4 ensures !MatchAt(t, "\n", j) {
      assert t[j..j + 1] == [t[j]];
    }
    assert t[4..5] == [t[4]];
    assert MatchAt(t, "\n", 4);
  }

  /** The loader with the intended offset, as a value. */
  function LoadedIntended(file: PcdFile): Result<PointCloud, LoadError>
  {
    match IntendedPayloadOffset(file.bytes)
    case None => Err(MalformedHeader)
    case Some(off) => LoadedFrom(file, off)
  }

  /** The loader with the intended offset: a window without a complete DATA line
      is a malformed header; otherwise the same record loop runs from the byte
      after the DATA line. */
  method LoadPcdIntended(file: PcdFile) returns (r: Result<PointCloud, LoadError>)
    ensures var off := IntendedPayloadOffset(file.bytes);
      var n := PointsToRead(ParsedHeader(file.bytes));
      (off.None? ==> r == Err(MalformedHeader))
      && (off.Some? ==> (r.Ok? <==> n == 0 || off.value + RecordStride * n <= |file.bytes|)
                        && (r.Ok? ==> r.value == PointCloud(DecodedPoints(file.bytes, off.value, n), file.name))
                        && (r.Err? ==> r.error == RangeError))
    ensures r == LoadedIntended(file)
  {
    var _, header := ScanHeader(file.bytes);
    var off := IntendedPayloadOffset(file.bytes);
    if off.None? {
      return Err(MalformedHeader);
    }
    var points := DecodeRecords(file.bytes, off.value, PointsToRead(header));
    if points.Err? {
      return Err(points.error);
    }
    return Ok(PointCloud(points.value, file.name));
  }
}
