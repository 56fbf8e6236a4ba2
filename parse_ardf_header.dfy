/** `parseARDFheader`: the header a force map is opened with. It names the
    file, adds every field `read_ardf_metadata` returns, and enumerates the
    map's curves as `(line, point)` pairs in line-major order. */
module ParseArdfHeader {
  import opened Wrappers
  import opened Bytes
  import opened Errors
  import ArdfImages
  import ReadArdf
  import PyOps

  /** The header dictionary. The metadata keys (`FileName`, `y`, `Notes`,
      `channelList`, `FileStructure`, ...) do not coincide with the keys
      set before them, so `header.update` only adds them. `invOLS` and
      `springConstant` are the note texts the original converts to floats. */
  datatype Header = Header(filePath: string, entryFilename: string, fileSizeBytes: nat, fileType: string,
                           uffCode: string, uffVersion: string, metadata: ReadArdf.Metadata,
                           allPositions: seq<(nat, nat)>, totNbCurve: nat, heightChannelKey: string,
                           invOLS: string, springConstant: string)

  /** `(y.shape[0], y.shape[1])`: lines and points of the image stack; the
      empty list of a file without images has no `shape`. */
  function Shape(y: ArdfImages.Stack): Result<(nat, nat), Error> {
    match y
    case NoImages => Failure(WrongKind)
    case Stack(lines, points, _) => Success((lines, points))
  }

  /** The pairs of one line, point by point. */
  function LinePositions(line: nat, npoints: nat): seq<(nat, nat)> {
    seq(npoints, p requires 0 <= p < npoints => (line, p))
  }

  /** The pairs of the first `nlines` lines. */
  function Positions(nlines: nat, npoints: nat): seq<(nat, nat)>
    decreases nlines
  {
    if nlines == 0 then [] else Positions(nlines - 1, npoints) + LinePositions(nlines - 1, npoints)
  }

  /** There are `nlines * npoints` pairs and pair `k` is
      `(k div npoints, k mod npoints)`. */
  lemma {:induction false} PositionsMeaning(nlines: nat, npoints: nat)
    ensures |Positions(nlines, npoints)| == nlines * npoints
    ensures forall k :: 0 <= k < |Positions(nlines, npoints)| ==>
              Positions(nlines, npoints)[k] == (k / npoints, k % npoints)
    decreases nlines
  {
    if nlines > 0 {
      PositionsMeaning(nlines - 1, npoints);
      var before, ps := Positions(nlines - 1, npoints), Positions(nlines, npoints);
      assert |before| == (nlines - 1) * npoints;
      forall k | 0 <= k < |ps| ensures ps[k] == (k / npoints, k % npoints) {
        if k >= |before| {
          var p := k - |before|;
          PyOps.DivModOf(nlines - 1, p, npoints);
          assert ps[k] == LinePositions(nlines - 1, npoints)[p];
        }
      }
    }
  }

  /** Every pair names a line below `nlines` and a point below `npoints`,
      and no pair occurs twice. */
  lemma PositionsInRange(nlines: nat, npoints: nat)
    ensures forall k :: 0 <= k < |Positions(nlines, npoints)| ==>
              Positions(nlines, npoints)[k].0 < nlines && Positions(nlines, npoints)[k].1 < npoints
    ensures forall k, l :: 0 <= k < l < |Positions(nlines, npoints)| ==>
              Positions(nlines, npoints)[k] != Positions(nlines, npoints)[l]
  {
    PositionsMeaning(nlines, npoints);
    var ps := Positions(nlines, npoints);
    forall k | 0 <= k < |ps| ensures ps[k].0 < nlines && ps[k].1 < npoints {
      PyOps.DivBelow(k, nlines, npoints);
    }
    forall k, l | 0 <= k < l < |ps| ensures ps[k] != ps[l] {
      PyOps.DivModUnique(k, l, npoints);
    }
  }

  /** The nested loop that appends `[line, point]` for every line and point. */
  method AllPositions(nlines: nat, npoints: nat) returns (allPositions: seq<(nat, nat)>)
    ensures allPositions == Positions(nlines, npoints)
  {
    allPositions := [];
    for line := 0 to nlines
      invariant allPositions == Positions(line, npoints)
    {
      for point := 0 to npoints
        invariant allPositions == Positions(line, npoints) + LinePositions(line, npoints)[..point]
      {
        assert LinePositions(line, npoints)[..point + 1] == LinePositions(line, npoints)[..point] + [(line, point)];
        allPositions := allPositions + [(line, point)];
      }
    }
  }

  /** `d[key]` of a dictionary of strings. */
  function Lookup(d: map<string, string>, key: string): Result<string, Error> {
    if key in d then Success(d[key]) else Failure(MissingKey(key))
  }

  /** `parseARDFheader(filepath)` on the file `data` (whose size is its
      length); the two constants of the unified format are parameters. */
  function HeaderOf(data: seq<byte>, filepath: string, uffCode: string, uffVersion: string)
    : Result<Header, Error>
  {
    var m :- ReadArdf.MetadataOf(data, filepath);
    HeaderFrom(m, |data|, filepath, uffCode, uffVersion)
  }

  /** What follows `read_ardf_metadata`: the fields set from the path, the
      metadata itself, and the fields computed from the image stack and the
      notes. */
  function HeaderFrom(m: ReadArdf.Metadata, size: nat, filepath: string, uffCode: string, uffVersion: string)
    : Result<Header, Error>
  {
    var shape :- Shape(m.y);
    var ps := Positions(shape.0, shape.1);
    var invOLS :- Lookup(m.notes, "InvOLS");
    var springConstant :- Lookup(m.notes, "SpringConstant");
    Success(Header(filepath, PyOps.Basename(filepath), size, PyOps.LastPiece(filepath, '.'),
                   uffCode, uffVersion, m, ps, |ps|, "height", invOLS, springConstant))
  }

  method ParseArdfHeader(data: seq<byte>, filepath: string, uffCode: string, uffVersion: string)
    returns (r: Result<Header, Error>)
    ensures r == HeaderOf(data, filepath, uffCode, uffVersion)
  {
    var entryFilename := PyOps.Basename(filepath);
    var fileType := PyOps.LastPiece(filepath, '.');
    var fileStruct :- ReadArdf.ReadArdfMetadata(data, filepath);
    var shape :- Shape(fileStruct.y);
    var allPositions := AllPositions(shape.0, shape.1);
    var invOLS :- Lookup(fileStruct.notes, "InvOLS");
    var springConstant :- Lookup(fileStruct.notes, "SpringConstant");
    return Success(Header(filepath, entryFilename, |data|, fileType, uffCode, uffVersion, fileStruct,
                          allPositions, |allPositions|, "height", invOLS, springConstant));
  }

  /** A header exists exactly when the metadata can be read, holds an image
      stack and its notes have both "InvOLS" and "SpringConstant"; otherwise
      the first failing step's error is returned. */
  lemma HeaderSucceeds(m: ReadArdf.Metadata, size: nat, filepath: string, uffCode: string, uffVersion: string)
    ensures HeaderFrom(m, size, filepath, uffCode, uffVersion).Success?
            <==> m.y.Stack? && "InvOLS" in m.notes && "SpringConstant" in m.notes
    ensures m.y.NoImages? ==> HeaderFrom(m, size, filepath, uffCode, uffVersion) == Failure(WrongKind)
    ensures m.y.Stack? && "InvOLS" !in m.notes ==>
              HeaderFrom(m, size, filepath, uffCode, uffVersion) == Failure(MissingKey("InvOLS"))
    ensures m.y.Stack? && "InvOLS" in m.notes && "SpringConstant" !in m.notes ==>
              HeaderFrom(m, size, filepath, uffCode, uffVersion) == Failure(MissingKey("SpringConstant"))
  {
  }

  /** The fields of a parsed header, one by one. */
  lemma HeaderFields(m: ReadArdf.Metadata, size: nat, filepath: string, uffCode: string, uffVersion: string, h: Header)
    requires HeaderFrom(m, size, filepath, uffCode, uffVersion) == Success(h)
    ensures m.y.Stack? && "InvOLS" in m.notes && "SpringConstant" in m.notes
    ensures h == Header(filepath, PyOps.Basename(filepath), size, PyOps.LastPiece(filepath, '.'), uffCode, uffVersion,
                        m, Positions(m.y.lines, m.y.points), |Positions(m.y.lines, m.y.points)|, "height",
                        m.notes["InvOLS"], m.notes["SpringConstant"])
  {
  }

  /** A parsed header: the file name is the part after the last '/', the
      file type the part after the last '.', the metadata is kept whole,
      the curves are the `lines * points` pairs of the image stack in
      line-major order, and the height channel is called "height". */
  lemma HeaderMeaning(m: ReadArdf.Metadata, size: nat, filepath: string, uffCode: string, uffVersion: string, h: Header)
    requires HeaderFrom(m, size, filepath, uffCode, uffVersion) == Success(h)
    ensures h.metadata == m && m.y.Stack? && h.filePath == filepath
    ensures '/' !in h.entryFilename && '.' !in h.fileType
    ensures |h.fileType| <= |filepath| && filepath[|filepath| - |h.fileType|..] == h.fileType
    ensures h.fileSizeBytes == size && h.heightChannelKey == "height"
    ensures h.uffCode == uffCode && h.uffVersion == uffVersion
    ensures h.totNbCurve == |h.allPositions| == m.y.lines * m.y.points
    ensures forall k :: 0 <= k < |h.allPositions| ==> h.allPositions[k] == (k / m.y.points, k % m.y.points)
    ensures h.invOLS == m.notes["InvOLS"] && h.springConstant == m.notes["SpringConstant"]
  {
    HeaderFields(m, size, filepath, uffCode, uffVersion, h);
    PositionsMeaning(m.y.lines, m.y.points);
    PyOps.LastPieceIsSuffix(filepath, '.');
    var parts := PyOps.SplitOn(filepath, '.');
    assert '.' !in parts[|parts| - 1];
  }
}
