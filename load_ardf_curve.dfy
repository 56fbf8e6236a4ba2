/** `loadARDFcurve`: one force curve of a map, cut into its approach and
    retract segments. The curve is extracted at the `(line, point)` the
    header lists for the curve index; the piezo ("ZSnsr") and deflection
    ("Defl") channels are cut just after their last nonzero sample, the
    deflection changes sign, and the split points `pnt0`, `pnt1` of the
    curve delimit the two segments. */
module LoadArdfCurve {
  import opened Wrappers
  import opened Bytes
  import opened Errors
  import ArdfImages
  import ReadArdf
  import GetArdfData
  import ParseArdfHeader
  import PyOps

  // ---------------------------------------------------------------------
  // Samples
  // ---------------------------------------------------------------------

  /** A single-precision sample that is not 0.0: every bit but the sign bit
      counts, since -0.0 == 0.0 (a NaN is nonzero). */
  predicate Nonzero(w: Word) {
    w % 0x8000_0000 != 0
  }

  /** `w * -1` on a single-precision word: the sign bit flips. */
  function Flip(w: Word): Word {
    if w < 0x8000_0000 then w + 0x8000_0000 else w - 0x8000_0000
  }

  /** Multiplying by -1 twice gives the sample back, and keeps it zero or
      nonzero. */
  lemma FlipMeaning(w: Word)
    ensures Flip(Flip(w)) == w
    ensures Nonzero(Flip(w)) <==> Nonzero(w)
    ensures Flip(w) != w
  {
  }

  /** `a * -1` of an array. */
  function Negated(s: seq<Word>): (r: seq<Word>)
    ensures |r| == |s| && forall k :: 0 <= k < |s| ==> r[k] == Flip(s[k])
  {
    seq(|s|, k requires 0 <= k < |s| => Flip(s[k]))
  }

  /** Negating twice gives the array back, and the zero samples stay where
      they were. */
  lemma NegatedMeaning(s: seq<Word>)
    ensures Negated(Negated(s)) == s
    ensures forall k :: 0 <= k < |s| ==> (Nonzero(Negated(s)[k]) <==> Nonzero(s[k]))
  {
    forall k | 0 <= k < |s| ensures Negated(Negated(s))[k] == s[k] && (Nonzero(Negated(s)[k]) <==> Nonzero(s[k])) {
      FlipMeaning(s[k]);
    }
  }

  /** `np.nonzero(a)[0][-1]`: the index of the last nonzero sample; `None`
      is the IndexError of an array with no nonzero sample. */
  function LastNonzero(s: seq<Word>): (r: Option<nat>)
    ensures r.Some? ==> r.value < |s| && Nonzero(s[r.value]) && forall k :: r.value < k < |s| ==> !Nonzero(s[k])
    ensures r.None? ==> forall k :: 0 <= k < |s| ==> !Nonzero(s[k])
  {
    if s == [] then None
    else if Nonzero(s[|s| - 1]) then Some(|s| - 1)
    else LastNonzero(s[..|s| - 1])
  }

  /** `a[:last_nonzero + 1]`: the tail of zeros left by the parser removed. */
  function UpToLastNonzero(s: seq<Word>): (r: Result<seq<Word>, Error>)
    ensures r.Success? <==> exists k :: 0 <= k < |s| && Nonzero(s[k])
    ensures r.Success? ==> 1 <= |r.value| <= |s| && r.value == s[..|r.value|] && Nonzero(r.value[|r.value| - 1])
                           && forall k :: |r.value| <= k < |s| ==> !Nonzero(s[k])
    ensures r.Failure? ==> r.error == BadIndex
  {
    match LastNonzero(s)
    case None => Failure(BadIndex)
    case Some(i) => Success(s[..i + 1])
  }

  /** Cutting a second time changes nothing. */
  lemma UpToLastNonzeroIdempotent(s: seq<Word>)
    requires UpToLastNonzero(s).Success?
    ensures UpToLastNonzero(UpToLastNonzero(s).value) == UpToLastNonzero(s)
  {
    var t := UpToLastNonzero(s).value;
    var i := LastNonzero(t);
    assert Nonzero(t[|t| - 1]);
    assert i == Some(|t| - 1);
    assert t[..|t|] == t;
  }

  // ---------------------------------------------------------------------
  // Channels
  // ---------------------------------------------------------------------

  /** The channel names with their trailing NUL characters removed: each
      name is cut to a prefix that does not end in NUL, and what is cut off
      is all NULs. */
  function Cleaned(names: seq<string>): (r: seq<string>)
    ensures |r| == |names|
    ensures forall k :: 0 <= k < |names| ==>
      && |r[k]| <= |names[k]| && r[k] == names[k][..|r[k]|]
      && (r[k] == [] || r[k][|r[k]| - 1] != '\0')
      && (forall c :: |r[k]| <= c < |names[k]| ==> names[k][c] == '\0')
  {
    seq(|names|, k requires 0 <= k < |names| => PyOps.RStrip(names[k], '\0'))
  }

  /** `y[:, j]` of a two-dimensional array: an IndexError when a row has no
      column `j`. */
  function ColumnAt(y: ArdfImages.Matrix, j: nat): (r: Result<seq<Word>, Error>)
    ensures r.Success? <==> forall i :: 0 <= i < |y| ==> j < |y[i]|
    ensures r.Success? ==> |r.value| == |y| && forall i :: 0 <= i < |y| ==> r.value[i] == y[i][j]
    ensures r.Failure? ==> r.error == BadIndex
  {
    if forall i :: 0 <= i < |y| ==> j < |y[i]| then Success(GetArdfData.Column(y, j)) else Failure(BadIndex)
  }

  /** The samples of the channel called `name`, cut after the last nonzero
      one: `list.index` of the name, the column, the cut. */
  function ChannelOf(y: ArdfImages.Matrix, names: seq<string>, name: string): Result<seq<Word>, Error> {
    var j :- PyOps.IndexOf(names, name, NotInList(name));
    var column :- ColumnAt(y, j);
    UpToLastNonzero(column)
  }

  /** The channel is found when its name occurs, and then it is the first
      column of that name cut just after its last nonzero sample; a missing
      name is a ValueError naming it. */
  lemma ChannelMeaning(y: ArdfImages.Matrix, names: seq<string>, name: string)
    ensures name !in names ==> ChannelOf(y, names, name) == Failure(NotInList(name))
    ensures ChannelOf(y, names, name).Success? ==>
              exists j :: 0 <= j < |names| && names[j] == name && name !in names[..j] &&
                (forall i :: 0 <= i < |y| ==> j < |y[i]|) &&
                var c, r := GetArdfData.Column(y, j), ChannelOf(y, names, name).value;
                1 <= |r| <= |c| && r == c[..|r|] && Nonzero(r[|r| - 1]) && forall k :: |r| <= k < |c| ==> !Nonzero(c[k])
  {
    if ChannelOf(y, names, name).Success? {
      var j := PyOps.IndexOf(names, name, NotInList(name)).value;
      assert name !in names[..j] by {
        forall k | 0 <= k < j ensures names[..j][k] != name {
        }
      }
      var c := ColumnAt(y, j).value;
      assert c == GetArdfData.Column(y, j);
    }
  }

  // ---------------------------------------------------------------------
  // Segments
  // ---------------------------------------------------------------------

  /** The fields a segment is given; the time axis, velocity, sampling rate
      and Z displacement are floats computed from the notes and are not
      part of this model. */
  datatype SegmentData = SegmentData(height: seq<Word>, vDeflection: seq<Word>, nbPoint: nat,
                                     forceSetpointMode: string, nbCol: nat, forceSetpoint: int)

  datatype Segments = Segments(approach: SegmentData, retract: SegmentData)

  /** The note keys the loader reads, in the order it reads them. */
  const CurveNoteKeys: seq<string> :=
    ["ForceDecimation", "NumPtsPerSec", "TriggerType", "ApproachVelocity", "ExtendZ", "RetractVelocity", "RetractZ"]

  /** The KeyError of the first key the notes do not have. */
  function MissingNote(notes: map<string, string>, keys: seq<string>): (r: Outcome<Error>)
    ensures r.Pass? <==> forall k :: 0 <= k < |keys| ==> keys[k] in notes
    ensures r.Fail? ==> exists k :: 0 <= k < |keys| && keys[k] !in notes && r.error == MissingKey(keys[k]) &&
                                    forall l :: 0 <= l < k ==> keys[l] in notes
  {
    if keys == [] then Pass
    else if keys[0] !in notes then Fail(MissingKey(keys[0]))
    else
      var r := MissingNote(notes, keys[1..]);
      assert r.Fail? ==> exists k :: 1 <= k < |keys| && keys[k] !in notes && r.error == MissingKey(keys[k]) &&
                                      forall l :: 0 <= l < k ==> keys[l] in notes by {
        if r.Fail? {
          var k :| 0 <= k < |keys| - 1 && keys[1..][k] !in notes && r.error == MissingKey(keys[1..][k]) &&
                   forall l :: 0 <= l < k ==> keys[1..][l] in notes;
          assert forall l :: 1 <= l < k + 1 ==> keys[l] == keys[1..][l - 1];
        }
      }
      r
  }

  /** The one point `extract_ardf_data` returned: `{}` has no 'y' entry. */
  function PointData(ex: GetArdfData.Extracted): Result<GetArdfData.Curve, Error> {
    match ex
    case NoData => Failure(MissingKey("y"))
    case WholeLine(_) => Failure(WrongKind)
    case OnePoint(c) => Success(c)
  }

  /** Approach `[pnt0, pnt1)`, retract `[pnt1 + 1, len(deflection))`, with
      Python's slice rules; the segment's point count is the length of its
      deflection slice. */
  function Split(piezo: seq<Word>, deflection: seq<Word>, pnt0: nat, pnt1: nat, mode: string): Segments {
    var appDefl := PyOps.Slice(deflection, pnt0, pnt1);
    var retDefl := PyOps.Slice(deflection, pnt1 + 1, |deflection|);
    Segments(SegmentData(PyOps.Slice(piezo, pnt0, pnt1), appDefl, |appDefl|, mode, 3, 0),
             SegmentData(PyOps.Slice(piezo, pnt1 + 1, |deflection|), retDefl, |retDefl|, mode, 3, 0))
  }

  /** The piezo channel and the negated deflection channel. */
  function SamplesOf(y: ArdfImages.Matrix, names: seq<string>): Result<(seq<Word>, seq<Word>), Error> {
    var piezo :- ChannelOf(y, names, "ZSnsr");
    var defl :- ChannelOf(y, names, "Defl");
    Success((piezo, Negated(defl)))
  }

  /** Everything after the extraction: channel names, the two channels,
      the notes, the two segments. */
  function SegmentsOf(ex: GetArdfData.Extracted, m: ReadArdf.Metadata): Result<Segments, Error> {
    var channels :- PyOps.IndexOr(m.channelList, 0, BadIndex);
    var c :- PointData(ex);
    var samples :- SamplesOf(c.y, Cleaned(channels));
    :- MissingNote(m.notes, CurveNoteKeys);
    assert CurveNoteKeys[2] in m.notes;
    Success(Split(samples.0, samples.1, c.pnt0, c.pnt1, m.notes["TriggerType"]))
  }

  /** `loadARDFcurve(header, idx)` on the file `data`: the position of curve
      `idx` (a Python index), that point of that line of the trace volume
      with the header as file structure, then the segments. */
  function CurveOf(data: seq<byte>, header: ParseArdfHeader.Header, idx: int): Result<Segments, Error> {
    var position :- PyOps.IndexOr(header.allPositions, idx, BadIndex);
    var ex :- GetArdfData.ExtractFrom(data, header.metadata.structure, position.0, position.1, 1);
    SegmentsOf(ex, header.metadata)
  }

  /** The two segments split the deflection: approach and retract hold as
      many points as their deflection slices, which do not overlap, have
      three data columns and setpoint 0; when `pnt0 <= pnt1` lies inside
      the deflection, approach, the sample at `pnt1` and retract are
      together the deflection from `pnt0` on; and a piezo channel at least
      as long gives heights of the same lengths (for the approach, when
      `pnt1` does not pass the deflection's end). */
  lemma SplitMeaning(piezo: seq<Word>, deflection: seq<Word>, pnt0: nat, pnt1: nat, mode: string)
    ensures var s := Split(piezo, deflection, pnt0, pnt1, mode);
      && s.approach.nbPoint == |s.approach.vDeflection| && s.retract.nbPoint == |s.retract.vDeflection|
      && s.approach.nbCol == s.retract.nbCol == 3 && s.approach.forceSetpoint == s.retract.forceSetpoint == 0
      && s.approach.forceSetpointMode == s.retract.forceSetpointMode == mode
      && s.approach.nbPoint + s.retract.nbPoint <= |deflection|
      && (pnt0 <= pnt1 < |deflection| ==>
            s.approach.vDeflection + [deflection[pnt1]] + s.retract.vDeflection == deflection[pnt0..])
      && (|piezo| >= |deflection| ==> |s.retract.height| == |s.retract.vDeflection|)
      && (|piezo| >= |deflection| >= pnt1 ==> |s.approach.height| == |s.approach.vDeflection|)
  {
    var s := Split(piezo, deflection, pnt0, pnt1, mode);
    var n := |deflection|;
    if pnt0 <= pnt1 < n {
      assert s.approach.vDeflection == deflection[pnt0..pnt1];
      assert s.retract.vDeflection == deflection[pnt1 + 1..];
      assert deflection[pnt0..] == deflection[pnt0..pnt1] + [deflection[pnt1]] + deflection[pnt1 + 1..];
    }
  }

  /** Both channels are found, each cut after a nonzero sample, and the
      deflection is the negated "Defl" channel; the first name missing is
      the ValueError. */
  lemma SamplesMeaning(y: ArdfImages.Matrix, names: seq<string>)
    ensures SamplesOf(y, names).Success? <==>
              ChannelOf(y, names, "ZSnsr").Success? && ChannelOf(y, names, "Defl").Success?
    ensures SamplesOf(y, names).Success? ==>
      var piezo, defl := SamplesOf(y, names).value.0, SamplesOf(y, names).value.1;
      && piezo == ChannelOf(y, names, "ZSnsr").value && Negated(defl) == ChannelOf(y, names, "Defl").value
      && |piezo| >= 1 && Nonzero(piezo[|piezo| - 1]) && |defl| >= 1 && Nonzero(defl[|defl| - 1])
    ensures "ZSnsr" !in names ==> SamplesOf(y, names) == Failure(NotInList("ZSnsr"))
    ensures ChannelOf(y, names, "ZSnsr").Success? && "Defl" !in names ==> SamplesOf(y, names) == Failure(NotInList("Defl"))
  {
    ChannelMeaning(y, names, "ZSnsr");
    ChannelMeaning(y, names, "Defl");
    if SamplesOf(y, names).Success? {
      var d := ChannelOf(y, names, "Defl").value;
      NegatedMeaning(d);
    }
  }

  /** The segments exist exactly when there is a first channel list, the
      extraction gave one point, both channels are found and the notes
      have every key the loader reads; a missing key is reported by the
      first one in reading order. */
  lemma SegmentsMeaning(ex: GetArdfData.Extracted, m: ReadArdf.Metadata)
    ensures SegmentsOf(ex, m).Success? <==>
      && m.channelList != [] && ex.OnePoint?
      && SamplesOf(ex.curve.y, Cleaned(m.channelList[0])).Success?
      && MissingNote(m.notes, CurveNoteKeys).Pass?
    ensures m.channelList != [] && ex.OnePoint? && "TriggerType" in m.notes ==>
      var c := ex.curve;
      var samples := SamplesOf(c.y, Cleaned(m.channelList[0]));
      samples.Success? && MissingNote(m.notes, CurveNoteKeys).Pass? ==>
        SegmentsOf(ex, m) == Success(Split(samples.value.0, samples.value.1, c.pnt0, c.pnt1, m.notes["TriggerType"]))
    ensures m.channelList == [] ==> SegmentsOf(ex, m) == Failure(BadIndex)
    ensures m.channelList != [] && ex.NoData? ==> SegmentsOf(ex, m) == Failure(MissingKey("y"))
    ensures m.channelList != [] && ex.OnePoint? ==>
      var samples := SamplesOf(ex.curve.y, Cleaned(m.channelList[0]));
      && (samples.Failure? ==> SegmentsOf(ex, m) == Failure(samples.error))
      && (samples.Success? && MissingNote(m.notes, CurveNoteKeys).Fail? ==>
            SegmentsOf(ex, m) == Failure(MissingNote(m.notes, CurveNoteKeys).error))
  {
  }

  /** A curve position always names a point, so the extraction never
      returns a whole line. */
  lemma NeverWholeLine(data: seq<byte>, s: ReadArdf.Structure, line: nat, point: nat)
    ensures GetArdfData.ExtractFrom(data, s, line, point, 1).Success? ==>
              !GetArdfData.ExtractFrom(data, s, line, point, 1).value.WholeLine?
  {
  }

  /** Curve `idx` is read from the position the header lists for it, with
      Python's negative indices: an index outside the list is an
      IndexError, and a curve that loads came from one point of the
      trace-selected volume. */
  lemma CurveMeaning(data: seq<byte>, header: ParseArdfHeader.Header, idx: int)
    ensures PyOps.Index(header.allPositions, idx).None? ==> CurveOf(data, header, idx) == Failure(BadIndex)
    ensures CurveOf(data, header, idx).Success? ==>
      var position := PyOps.Index(header.allPositions, idx).value;
      var ex := GetArdfData.ExtractFrom(data, header.metadata.structure, position.0, position.1, 1);
      ex.Success? && ex.value.OnePoint? && CurveOf(data, header, idx) == SegmentsOf(ex.value, header.metadata)
  {
    if CurveOf(data, header, idx).Success? {
      var position := PyOps.Index(header.allPositions, idx).value;
      NeverWholeLine(data, header.metadata.structure, position.0, position.1);
      SegmentsMeaning(GetArdfData.ExtractFrom(data, header.metadata.structure, position.0, position.1, 1).value,
                      header.metadata);
    }
  }

  // ---------------------------------------------------------------------
  // The objects the loader fills
  // ---------------------------------------------------------------------

  /** A segment of a force curve. The constructor's defaults for the fields
      the loader sets afterwards are placeholders: the `Segment` class is
      not part of this model. */
  class Segment {
    const fileName: string
    const segmentId: string
    const segmentType: string
    var height: seq<Word>
    var vDeflection: seq<Word>
    var nbPoint: nat
    var forceSetpointMode: string
    var nbCol: nat
    var forceSetpoint: int

    constructor(fileName: string, segmentId: string, segmentType: string)
      ensures this.fileName == fileName && this.segmentId == segmentId && this.segmentType == segmentType
      ensures height == [] && vDeflection == [] && nbPoint == 0
    {
      this.fileName := fileName;
      this.segmentId := segmentId;
      this.segmentType := segmentType;
      height := [];
      vDeflection := [];
      nbPoint := 0;
      forceSetpointMode := "";
      nbCol := 0;
      forceSetpoint := 0;
    }

    /** The fields the loader assigns. */
    function Data(): SegmentData
      reads this
    {
      SegmentData(height, vDeflection, nbPoint, forceSetpointMode, nbCol, forceSetpoint)
    }

    /** Assigns the fields one by one. */
    method Fill(d: SegmentData)
      modifies this
      ensures Data() == d
    {
      height := d.height;
      vDeflection := d.vDeflection;
      nbPoint := d.nbPoint;
      forceSetpointMode := d.forceSetpointMode;
      nbCol := d.nbCol;
      forceSetpoint := d.forceSetpoint;
    }
  }

  /** A force curve: its index, the file it came from and its segment
      lists of `(id, segment)` pairs. */
  class ForceCurve {
    const idx: int
    const fileName: string
    var extendSegments: seq<(string, Segment)>
    var retractSegments: seq<(string, Segment)>

    constructor(idx: int, fileName: string)
      ensures this.idx == idx && this.fileName == fileName
      ensures extendSegments == [] && retractSegments == []
    {
      this.idx := idx;
      this.fileName := fileName;
      extendSegments := [];
      retractSegments := [];
    }
  }

  /** The loader: fails exactly as `CurveOf` does; otherwise a new force
      curve for `idx` with one fresh approach segment "0" in its extend list
      and one fresh retract segment "1" in its retract list, holding the
      segments `CurveOf` describes. */
  method LoadArdfCurveData(data: seq<byte>, header: ParseArdfHeader.Header, idx: int) returns (r: Result<ForceCurve, Error>)
    ensures CurveOf(data, header, idx).Failure? ==> r.Failure? && r.error == CurveOf(data, header, idx).error
    ensures CurveOf(data, header, idx).Success? ==>
      && r.Success? && fresh(r.value)
      && var fc, s := r.value, CurveOf(data, header, idx).value;
      && fc.idx == idx && fc.fileName == header.entryFilename
      && |fc.extendSegments| == 1 && |fc.retractSegments| == 1
      && fc.extendSegments[0].0 == "0" && fc.retractSegments[0].0 == "1"
      && fresh(fc.extendSegments[0].1) && fresh(fc.retractSegments[0].1)
      && fc.extendSegments[0].1.segmentType == "Approach" && fc.retractSegments[0].1.segmentType == "Retract"
      && fc.extendSegments[0].1.fileName == fc.retractSegments[0].1.fileName == header.entryFilename
      && fc.extendSegments[0].1.Data() == s.approach && fc.retractSegments[0].1.Data() == s.retract
  {
    var fileName := header.entryFilename;
    var forceCurve := new ForceCurve(idx, fileName);
    var position :- PyOps.IndexOr(header.allPositions, idx, BadIndex);
    var ardfData :- GetArdfData.ExtractWith(data, header.metadata.structure, position.0, position.1, 1);
    var segments :- SegmentsOf(ardfData, header.metadata);
    var appsegment := new Segment(fileName, "0", "Approach");
    var retsegment := new Segment(fileName, "1", "Retract");
    appsegment.Fill(segments.approach);
    retsegment.Fill(segments.retract);
    forceCurve.extendSegments := forceCurve.extendSegments + [("0", appsegment)];
    forceCurve.retractSegments := forceCurve.retractSegments + [("1", retsegment)];
    return Success(forceCurve);
  }
}
