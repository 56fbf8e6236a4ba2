/** `extract_ardf_data`: the force curves of one scan line. The line's first
    VSET is found through the line pointer table of the chosen volume, and
    every point of the line is read as a VSET, a VNAM, one VDAT per channel
    and a closing XDAT. The channels of a point become the columns of one
    plane; the planes are stacked, padding with zero rows to the longest
    point. A retrace line is flipped into scan order, and one point can be
    picked out of the line. */
module GetArdfData {
  import opened Wrappers
  import opened Bytes
  import opened Errors
  import opened Stream
  import opened UtilsArdf
  import opened ArdfVolumes
  import ArdfImages
  import ReadArdf
  import PyOps

  // ---------------------------------------------------------------------
  // Choosing the volume and the line
  // ---------------------------------------------------------------------

  /** `F['volm1']` (`i == 0`) and `F['volm2']` (`i == 1`). */
  function Volm(s: ReadArdf.Structure, i: nat): Result<Volume, Error>
    requires i < 2
  {
    if i < |s.volumes| then Success(s.volumes[i])
    else Failure(MissingKey(if i == 0 then "volm1" else "volm2"))
  }

  /** A flag set by a volume's VSET samples; a KeyError when no sample set it. */
  function Flag(f: Option<bool>, key: string): Result<bool, Error> {
    match f
    case Some(b) => Success(b)
    case None => Failure(MissingKey(key))
  }

  /** The reader stores the flag as the int 1 or 0 (modelled here as a
      boolean), and Python compares the integer argument with that int, so
      only 1 matches a stored 1 and only 0 a stored 0. */
  predicate Matches(x: int, flag: bool) {
    x == if flag then 1 else 0
  }

  /** The trace/retrace choice, yielding the chosen volume and the first
      volume (whose channel list gives the number of channels). */
  function SelectVolume(s: ReadArdf.Structure, trace: int): Result<(Volume, Volume), Error> {
    if s.numbVolm > 1 then
      var v1 :- Volm(s, 0);
      var t :- Flag(v1.samples.trace, "trace");
      if Matches(trace, t) then Success((v1, v1))
      else
        var v2 :- Volm(s, 1);
        Success((v2, v1))
    else
      var v1 :- Volm(s, 0);
      Success((v1, v1))
  }

  /** With more than one volume the first is taken exactly when `trace`
      equals its trace flag, the second otherwise; with one, the first.
      The channels always come from the first volume. */
  lemma SelectMeaning(s: ReadArdf.Structure, trace: int)
    ensures var r := SelectVolume(s, trace);
      && (r.Success? <==>
            |s.volumes| >= 1
            && (s.numbVolm > 1 ==> s.volumes[0].samples.trace.Some?
                                   && (Matches(trace, s.volumes[0].samples.trace.value) || |s.volumes| >= 2)))
      && (r.Success? ==>
            && r.value.1 == s.volumes[0]
            && (if s.numbVolm > 1 && !Matches(trace, s.volumes[0].samples.trace.value)
                then r.value.0 == s.volumes[1] else r.value.0 == s.volumes[0]))
  {
  }

  /** The line as stored: a volume scanned downwards stores line `l` as
      `lines - l - 1`. */
  function AdjLine(v: Volume, getLine: int): Result<int, Error> {
    var down :- Flag(v.samples.scanDown, "scanDown");
    Success(if down then v.vdef.lines - getLine - 1 else getLine)
  }

  /** The adjustment is its own inverse, and the identity unless the volume
      was scanned downwards. */
  lemma AdjLineMeaning(v: Volume, getLine: int)
    ensures AdjLine(v, getLine).Success? <==> v.samples.scanDown.Some?
    ensures AdjLine(v, getLine).Success? ==>
              AdjLine(v, AdjLine(v, getLine).value) == Success(getLine)
              && (v.samples.scanDown == Some(false) ==> AdjLine(v, getLine).value == getLine)
  {
  }

  /** Where the line starts, how many points it has and how many channels
      each point has. */
  datatype Location = Location(loc: nat, points: nat, channels: nat)

  function Locate(s: ReadArdf.Structure, getLine: int, trace: int): Result<Location, Error> {
    var vs :- SelectVolume(s, trace);
    var adj :- AdjLine(vs.0, getLine);
    var lp :- LinePointers(vs.0.idx);
    var loc :- PyOps.IndexOr(lp, adj, BadIndex);
    Success(Location(loc, vs.0.vdef.points, |vs.1.vchn|))
  }

  // ---------------------------------------------------------------------
  // One point: VSET, VNAM, the channels' VDATs, XDAT
  // ---------------------------------------------------------------------

  /** Column `j` of a matrix. */
  function Column(m: ArdfImages.Matrix, j: nat): seq<Word>
    requires forall i :: 0 <= i < |m| ==> j < |m[i]|
  {
    seq(|m|, i requires 0 <= i < |m| => m[i][j])
  }

  /** `np.column_stack` of one-dimensional arrays: refused for no arrays or
      arrays of different lengths. */
  function ColumnStack(cols: seq<seq<Word>>): (r: Result<ArdfImages.Matrix, Error>)
    ensures r.Success? ==> cols != [] && ArdfImages.Shaped(r.value, |cols[0]|, |cols|)
  {
    if cols == [] || exists j :: 0 <= j < |cols| && |cols[j]| != |cols[0]| then Failure(BadShape)
    else Success(seq(|cols[0]|, i requires 0 <= i < |cols[0]| =>
                   seq(|cols|, j requires 0 <= j < |cols| => cols[j][i])))
  }

  /** Stacking succeeds exactly for a non-empty list of equally long arrays,
      and column `j` of the result is array `j`. */
  lemma ColumnStackMeaning(cols: seq<seq<Word>>)
    ensures ColumnStack(cols).Success? <==> cols != [] && forall j :: 0 <= j < |cols| ==> |cols[j]| == |cols[0]|
    ensures ColumnStack(cols).Success? ==>
              forall j :: 0 <= j < |cols| ==> Column(ColumnStack(cols).value, j) == cols[j]
  {
    if ColumnStack(cols).Success? {
      var m := ColumnStack(cols).value;
      forall j | 0 <= j < |cols| ensures Column(m, j) == cols[j] {
        assert |Column(m, j)| == |cols[j]|;
      }
    }
  }

  /** The samples of each VDAT, in reading order. */
  function ChannelData(vdats: seq<Vdat>): (r: seq<seq<Word>>)
    ensures |r| == |vdats|
    ensures forall j :: 0 <= j < |vdats| ==> r[j] == vdats[j].data
  {
    seq(|vdats|, j requires 0 <= j < |vdats| => vdats[j].data)
  }

  /** `n` VDAT records read one after the other, appended to `acc`. */
  function VdatsFrom(data: seq<byte>, pos: nat, n: nat, acc: seq<Vdat>): Result<Parsed<seq<Vdat>>, Error>
    decreases n - |acc|, 3
  {
    if |acc| >= n then Success(Parsed(acc, pos))
    else VdatThen(data, pos, n, acc)
  }

  /** Two layers between the loop and the record read keep a one-step
      unfolding of the loop from exposing the record's fields. */
  function VdatThen(data: seq<byte>, pos: nat, n: nat, acc: seq<Vdat>): Result<Parsed<seq<Vdat>>, Error>
    requires |acc| < n
    decreases n - |acc|, 2
  {
    VdatRead(data, pos, n, acc)
  }

  function VdatRead(data: seq<byte>, pos: nat, n: nat, acc: seq<Vdat>): Result<Parsed<seq<Vdat>>, Error>
    requires |acc| < n
    decreases n - |acc|, 1
  {
    VdatsAfter(data, VdatFrom(data, pos, -1), n, acc)
  }

  function VdatsAfter(data: seq<byte>, v: Result<Parsed<Vdat>, Error>, n: nat, acc: seq<Vdat>)
    : Result<Parsed<seq<Vdat>>, Error>
    requires |acc| < n
    decreases n - |acc|, 0
  {
    var x :- v;
    VdatsFrom(data, x.after, n, acc + [x.value])
  }

  lemma VdatsStep(data: seq<byte>, pos: nat, n: nat, acc: seq<Vdat>)
    requires |acc| < n
    ensures var v := VdatFrom(data, pos, -1);
      VdatsFrom(data, pos, n, acc) ==
        if v.Failure? then Failure(v.error) else VdatsFrom(data, v.value.after, n, acc + [v.value.value])
  {
    assert VdatsFrom(data, pos, n, acc) == VdatThen(data, pos, n, acc);
    assert VdatThen(data, pos, n, acc) == VdatRead(data, pos, n, acc);
  }

  /** The record the loop goes on after, while it has not failed. */
  lemma VdatsGoOn(data: seq<byte>, pos: nat, n: nat, acc: seq<Vdat>) returns (x: Parsed<Vdat>)
    requires |acc| < n && VdatsFrom(data, pos, n, acc).Success?
    ensures VdatsFrom(data, pos, n, acc) == VdatsFrom(data, x.after, n, acc + [x.value])
  {
    VdatsStep(data, pos, n, acc);
    x := VdatFrom(data, pos, -1).value;
  }

  /** The channel loop reads exactly `n` records, keeping those read before. */
  lemma {:induction false} VdatsLength(data: seq<byte>, pos: nat, n: nat, acc: seq<Vdat>, vs: seq<Vdat>, after: nat)
    requires |acc| <= n && VdatsFrom(data, pos, n, acc) == Success(Parsed(vs, after))
    ensures |vs| == n && vs[..|acc|] == acc
    decreases n - |acc|
  {
    if |acc| < n {
      var x := VdatsGoOn(data, pos, n, acc);
      VdatsLength(data, x.after, n, acc + [x.value], vs, after);
    }
  }

  method ReadVdats(fid: Cursor, n: nat) returns (r: Result<seq<Vdat>, Error>)
    modifies fid
    ensures Agrees(r, VdatsFrom(fid.data, old(fid.pos), n, []), fid.pos)
  {
    ghost var spec := VdatsFrom(fid.data, fid.pos, n, []);
    var theData: seq<Vdat> := [];
    for k := 0 to n
      invariant |theData| == k
      invariant spec == VdatsFrom(fid.data, fid.pos, n, theData)
    {
      VdatsStep(fid.data, fid.pos, n, theData);
      var vdat :- ReadVdat(fid, -1);
      theData := theData + [vdat];
    }
    return Success(theData);
  }

  /** What the loop keeps of one point: its VSET and VNAM, the plane of its
      channels and the last VDAT read (whose segment boundaries are kept). */
  datatype PointRec = PointRec(vset: Vset, vnam: Vnam, plane: ArdfImages.Matrix, last: Vdat)

  /** One point of the line, read from the current position. */
  function PointAt(data: seq<byte>, pos: nat, nc: nat): Result<Parsed<PointRec>, Error> {
    var vset :- VsetFrom(data, pos, -1);
    PointAfterVset(data, vset.after, vset.value, nc)
  }

  function PointAfterVset(data: seq<byte>, pos: nat, vset: Vset, nc: nat): Result<Parsed<PointRec>, Error> {
    var vnam :- VnamFrom(data, pos, -1);
    var vdats :- VdatsFrom(data, vnam.after, nc, []);
    PointTail(data, vdats.after, vset, vnam.value, vdats.value)
  }

  /** The channels are stacked before the XDAT is read. */
  function PointTail(data: seq<byte>, pos: nat, vset: Vset, vnam: Vnam, vdats: seq<Vdat>)
    : Result<Parsed<PointRec>, Error>
  {
    var m :- ColumnStack(ChannelData(vdats));
    var x :- XdatFrom(data, pos, -1);
    Success(Parsed(PointRec(vset, vnam, m, vdats[|vdats| - 1]), x.after))
  }

  method ReadPoint(fid: Cursor, nc: nat) returns (r: Result<PointRec, Error>)
    modifies fid
    ensures Agrees(r, PointAt(fid.data, old(fid.pos), nc), fid.pos)
  {
    var vset :- ReadVset(fid, -1);
    r := ReadPointRest(fid, vset, nc);
  }

  method ReadPointRest(fid: Cursor, vset: Vset, nc: nat) returns (r: Result<PointRec, Error>)
    modifies fid
    ensures Agrees(r, PointAfterVset(fid.data, old(fid.pos), vset, nc), fid.pos)
  {
    var vnam :- ReadVnam(fid, -1);
    var vdats :- ReadVdats(fid, nc);
    r := ReadPointTail(fid, vset, vnam, vdats);
  }

  method ReadPointTail(fid: Cursor, vset: Vset, vnam: Vnam, vdats: seq<Vdat>) returns (r: Result<PointRec, Error>)
    modifies fid
    ensures Agrees(r, PointTail(fid.data, old(fid.pos), vset, vnam, vdats), fid.pos)
  {
    var theData :- ColumnStack(ChannelData(vdats));
    var _ :- ReadXdat(fid, -1);
    return Success(PointRec(vset, vnam, theData, vdats[|vdats| - 1]));
  }

  /** A point read successfully has a plane with one column per channel
      and one row per sample of its channels, whose last column is the
      last VDAT's samples. */
  lemma PointMeaning(data: seq<byte>, pos: nat, nc: nat, p: PointRec, after: nat)
    requires PointAt(data, pos, nc) == Success(Parsed(p, after))
    ensures nc >= 1 && ArdfImages.Shaped(p.plane, |p.last.data|, nc)
    ensures forall i :: 0 <= i < |p.plane| ==> p.plane[i][nc - 1] == p.last.data[i]
  {
    var vset := VsetFrom(data, pos, -1).value;
    PointRestMeaning(data, vset.after, vset.value, nc, p, after);
  }

  lemma PointRestMeaning(data: seq<byte>, pos: nat, vset: Vset, nc: nat, p: PointRec, after: nat)
    requires PointAfterVset(data, pos, vset, nc) == Success(Parsed(p, after))
    ensures nc >= 1 && ArdfImages.Shaped(p.plane, |p.last.data|, nc)
    ensures forall i :: 0 <= i < |p.plane| ==> p.plane[i][nc - 1] == p.last.data[i]
  {
    var rn := VnamFrom(data, pos, -1);
    assert rn.Success?;
    var vnam := rn.value;
    var rv := VdatsFrom(data, vnam.after, nc, []);
    assert rv.Success?;
    var vdats := rv.value;
    assert PointTail(data, vdats.after, vset, vnam.value, vdats.value) == Success(Parsed(p, after));
    VdatsLength(data, vnam.after, nc, [], vdats.value, vdats.after);
    PointTailMeaning(data, vdats.after, vset, vnam.value, vdats.value, p, after);
  }

  lemma PointTailMeaning(data: seq<byte>, pos: nat, vset: Vset, vnam: Vnam, vdats: seq<Vdat>, p: PointRec, after: nat)
    requires PointTail(data, pos, vset, vnam, vdats) == Success(Parsed(p, after))
    ensures |vdats| >= 1 && p.last == vdats[|vdats| - 1] && ArdfImages.Shaped(p.plane, |p.last.data|, |vdats|)
    ensures forall i :: 0 <= i < |p.plane| ==> p.plane[i][|vdats| - 1] == p.last.data[i]
  {
    var cols := ChannelData(vdats);
    ColumnStackMeaning(cols);
    var j := |vdats| - 1;
    assert Column(p.plane, j) == cols[j];
    forall i | 0 <= i < |p.plane| ensures p.plane[i][j] == p.last.data[i] {
      assert Column(p.plane, j)[i] == p.plane[i][j];
    }
  }

  // ---------------------------------------------------------------------
  // Stacking the planes
  // ---------------------------------------------------------------------

  /** A row of `nc` zeros. */
  function Zeros(nc: nat): seq<Word> {
    seq(nc, _ => 0)
  }

  /** A plane with zero rows appended up to `rows` rows (none if it has as
      many already): it keeps its own rows first, in order, and every row
      after them is `nc` zeros. */
  function Pad(m: ArdfImages.Matrix, rows: nat, nc: nat): (r: ArdfImages.Matrix)
    ensures |m| <= rows ==> |r| == rows
    ensures rows <= |m| ==> r == m
    ensures |m| <= |r| && r[..|m|] == m
    ensures forall k :: |m| <= k < |r| ==> |r[k]| == nc && forall c :: 0 <= c < nc ==> r[k][c] == 0
  {
    if |m| < rows then m + seq(rows - |m|, _ => Zeros(nc)) else m
  }

  /** Padding twice is padding once to the larger size. */
  lemma PadPad(m: ArdfImages.Matrix, rows: nat, more: nat, nc: nat)
    requires |m| <= rows <= more
    ensures Pad(Pad(m, rows, nc), more, nc) == Pad(m, more, nc)
  {
    var a, b := Pad(Pad(m, rows, nc), more, nc), Pad(m, more, nc);
    assert |a| == |b|;
    forall i | 0 <= i < |a| ensures a[i] == b[i] {
    }
  }

  /** `len(G['y'])`: the number of rows of the stack, 0 for the empty list. */
  function Rows(y: seq<ArdfImages.Matrix>): nat {
    if y == [] then 0 else |y[0]|
  }

  /** One plane added to the stack. A stack with rows is padded, or the
      plane is, so that both have as many rows as the longer, and the plane
      goes on top; a stack without rows (the empty list, or a single plane
      of no rows) is replaced by the plane alone. */
  function StackOn(y: seq<ArdfImages.Matrix>, d: ArdfImages.Matrix, nc: nat): seq<ArdfImages.Matrix> {
    if Rows(y) != 0 then
      var rows := if Rows(y) < |d| then |d| else Rows(y);
      seq(|y|, k requires 0 <= k < |y| => Pad(y[k], rows, nc)) + [Pad(d, rows, nc)]
    else
      [d]
  }

  // ---------------------------------------------------------------------
  // The whole line
  // ---------------------------------------------------------------------

  /** The dictionary `G` of a line: one entry per point in every list, and
      the stacked planes `y`, one per point. */
  datatype Line = Line(numbForce: seq<nat>, numbLine: seq<nat>, numbPoint: seq<nat>,
                       locPrev: seq<nat>, locNext: seq<nat>, name: seq<seq<byte>>,
                       y: seq<ArdfImages.Matrix>, pnt0: seq<nat>, pnt1: seq<nat>, pnt2: seq<nat>)

  const NewLine: Line := Line([], [], [], [], [], [], [], [], [], [])

  /** One point's record appended to the line. */
  function Gather(g: Line, p: PointRec, nc: nat): Line {
    Line(g.numbForce + [p.vset.force], g.numbLine + [p.vset.line], g.numbPoint + [p.vset.point],
         g.locPrev + [p.vset.prev], g.locNext + [p.vset.next], g.name + [p.vnam.name],
         StackOn(g.y, p.plane, nc), g.pnt0 + [p.last.pnt0], g.pnt1 + [p.last.pnt1], g.pnt2 + [p.last.pnt2])
  }

  /** The line after the given points, in reading order. */
  function LineOf(recs: seq<PointRec>, nc: nat): Line
    decreases |recs|
  {
    if recs == [] then NewLine
    else Gather(LineOf(recs[..|recs| - 1], nc), recs[|recs| - 1], nc)
  }

  /** The points of a line read one after the other, appended to `recs`. */
  function PointsFrom(data: seq<byte>, pos: nat, n: nat, nc: nat, recs: seq<PointRec>)
    : Result<Parsed<seq<PointRec>>, Error>
    decreases n - |recs|, 3
  {
    if |recs| >= n then Success(Parsed(recs, pos))
    else PointThen(data, pos, n, nc, recs)
  }

  function PointThen(data: seq<byte>, pos: nat, n: nat, nc: nat, recs: seq<PointRec>)
    : Result<Parsed<seq<PointRec>>, Error>
    requires |recs| < n
    decreases n - |recs|, 2
  {
    PointRead(data, pos, n, nc, recs)
  }

  function PointRead(data: seq<byte>, pos: nat, n: nat, nc: nat, recs: seq<PointRec>)
    : Result<Parsed<seq<PointRec>>, Error>
    requires |recs| < n
    decreases n - |recs|, 1
  {
    PointsAfter(data, PointAt(data, pos, nc), n, nc, recs)
  }

  function PointsAfter(data: seq<byte>, p: Result<Parsed<PointRec>, Error>, n: nat, nc: nat, recs: seq<PointRec>)
    : Result<Parsed<seq<PointRec>>, Error>
    requires |recs| < n
    decreases n - |recs|, 0
  {
    var x :- p;
    PointsFrom(data, x.after, n, nc, recs + [x.value])
  }

  lemma PointsStep(data: seq<byte>, pos: nat, n: nat, nc: nat, recs: seq<PointRec>)
    requires |recs| < n
    ensures var p := PointAt(data, pos, nc);
      PointsFrom(data, pos, n, nc, recs) ==
        if p.Failure? then Failure(p.error) else PointsFrom(data, p.value.after, n, nc, recs + [p.value.value])
  {
    assert PointsFrom(data, pos, n, nc, recs) == PointThen(data, pos, n, nc, recs);
    assert PointThen(data, pos, n, nc, recs) == PointRead(data, pos, n, nc, recs);
  }

  lemma PointsGoOn(data: seq<byte>, pos: nat, n: nat, nc: nat, recs: seq<PointRec>) returns (x: Parsed<PointRec>)
    requires |recs| < n && PointsFrom(data, pos, n, nc, recs).Success?
    ensures PointsFrom(data, pos, n, nc, recs) == PointsFrom(data, x.after, n, nc, recs + [x.value])
  {
    PointsStep(data, pos, n, nc, recs);
    x := PointAt(data, pos, nc).value;
  }

  /** The point loop reads exactly `n` points, keeping those read before. */
  lemma {:induction false} PointsLength(data: seq<byte>, pos: nat, n: nat, nc: nat, recs: seq<PointRec>,
                                         ps: seq<PointRec>, after: nat)
    requires |recs| <= n && PointsFrom(data, pos, n, nc, recs) == Success(Parsed(ps, after))
    ensures |ps| == n && ps[..|recs|] == recs
    decreases n - |recs|
  {
    if |recs| < n {
      var x := PointsGoOn(data, pos, n, nc, recs);
      PointsLength(data, x.after, n, nc, recs + [x.value], ps, after);
    }
  }

  /** The line the points give, or the failure that stopped the loop. */
  predicate LineAgrees(r: Result<Line, Error>, spec: Result<Parsed<seq<PointRec>>, Error>, nc: nat, pos: nat) {
    match spec
    case Success(p) => r == Success(LineOf(p.value, nc)) && pos == p.after
    case Failure(e) => r == Failure(e)
  }

  method ReadLine(fid: Cursor, numbPoints: nat, nc: nat) returns (r: Result<Line, Error>)
    modifies fid
    ensures LineAgrees(r, PointsFrom(fid.data, old(fid.pos), numbPoints, nc, []), nc, fid.pos)
  {
    ghost var spec := PointsFrom(fid.data, fid.pos, numbPoints, nc, []);
    ghost var recs: seq<PointRec> := [];
    var g := NewLine;
    for n := 0 to numbPoints
      invariant |recs| == n && g == LineOf(recs, nc)
      invariant spec == PointsFrom(fid.data, fid.pos, numbPoints, nc, recs)
    {
      PointsStep(fid.data, fid.pos, numbPoints, nc, recs);
      var p :- ReadPoint(fid, nc);
      assert (recs + [p])[..n] == recs;
      recs := recs + [p];
      g := Gather(g, p, nc);
    }
    return Success(g);
  }

  /** Every list of the line holds one entry per point, in reading order:
      the VSET's numbers, the VNAM's name and the last VDAT's boundaries. */
  predicate ListsOf(recs: seq<PointRec>, g: Line) {
    && |g.numbForce| == |g.numbLine| == |g.numbPoint| == |g.locPrev| == |g.locNext| == |recs|
    && |g.name| == |g.pnt0| == |g.pnt1| == |g.pnt2| == |recs|
    && forall k :: 0 <= k < |recs| ==>
         && g.numbForce[k] == recs[k].vset.force && g.numbLine[k] == recs[k].vset.line
         && g.numbPoint[k] == recs[k].vset.point && g.locPrev[k] == recs[k].vset.prev
         && g.locNext[k] == recs[k].vset.next && g.name[k] == recs[k].vnam.name
         && g.pnt0[k] == recs[k].last.pnt0 && g.pnt1[k] == recs[k].last.pnt1
         && g.pnt2[k] == recs[k].last.pnt2
  }

  lemma ListsStep(recs: seq<PointRec>, g0: Line, nc: nat)
    requires recs != [] && ListsOf(recs[..|recs| - 1], g0)
    ensures ListsOf(recs, Gather(g0, recs[|recs| - 1], nc))
  {
    var init := recs[..|recs| - 1];
    var g := Gather(g0, recs[|recs| - 1], nc);
    forall k | 0 <= k < |init|
      ensures g.numbForce[k] == recs[k].vset.force && g.numbLine[k] == recs[k].vset.line
         && g.numbPoint[k] == recs[k].vset.point && g.locPrev[k] == recs[k].vset.prev
         && g.locNext[k] == recs[k].vset.next && g.name[k] == recs[k].vnam.name
         && g.pnt0[k] == recs[k].last.pnt0 && g.pnt1[k] == recs[k].last.pnt1
         && g.pnt2[k] == recs[k].last.pnt2
    {
      assert recs[k] == init[k];
    }
  }

  lemma {:induction false} LineLists(recs: seq<PointRec>, nc: nat)
    ensures ListsOf(recs, LineOf(recs, nc))
    decreases |recs|
  {
    if recs != [] {
      var init := recs[..|recs| - 1];
      LineLists(init, nc);
      ListsStep(recs, LineOf(init, nc), nc);
    }
  }

  /** How many points at the start of the line have planes without rows,
      counted while every point so far has had none. */
  function LeadingEmpty(recs: seq<PointRec>): (j: nat)
    ensures j <= |recs|
    decreases |recs|
  {
    if recs == [] then 0
    else
      var j := LeadingEmpty(recs[..|recs| - 1]);
      if j == |recs| - 1 && |recs[|recs| - 1].plane| == 0 then |recs| else j
  }

  /** The most rows any point of the line has. */
  function MaxRows(recs: seq<PointRec>): nat
    decreases |recs|
  {
    if recs == [] then 0
    else
      var m := MaxRows(recs[..|recs| - 1]);
      if m < |recs[|recs| - 1].plane| then |recs[|recs| - 1].plane| else m
  }

  /** The leading points counted really are the maximal run of row-less points. */
  lemma {:induction false} LeadingEmptyMeaning(recs: seq<PointRec>)
    ensures forall k :: 0 <= k < LeadingEmpty(recs) ==> recs[k].plane == []
    ensures LeadingEmpty(recs) < |recs| ==> recs[LeadingEmpty(recs)].plane != []
    decreases |recs|
  {
    if recs != [] {
      var init := recs[..|recs| - 1];
      LeadingEmptyMeaning(init);
      forall k | 0 <= k < LeadingEmpty(recs) ensures recs[k].plane == [] {
        if k < |init| {
          assert recs[k] == init[k];
        }
      }
      if LeadingEmpty(recs) < |init| {
        assert recs[LeadingEmpty(recs)] == init[LeadingEmpty(recs)];
      }
    }
  }

  /** Plane `k` of `y` is the plane of point `rs[k]` padded to `m` rows. */
  predicate Aligned(rs: seq<PointRec>, y: seq<ArdfImages.Matrix>, m: nat, nc: nat) {
    && |y| == |rs|
    && forall k :: 0 <= k < |y| ==> |rs[k].plane| <= m && y[k] == Pad(rs[k].plane, m, nc)
  }

  /** The shape of the stack after the points `recs`: while only row-less
      points have been read, the last of them alone; from the first point
      with rows on, one plane per point from there, each padded to the
      most rows any point has. */
  predicate PlanesAfter(recs: seq<PointRec>, y: seq<ArdfImages.Matrix>, nc: nat) {
    var j := LeadingEmpty(recs);
    && (j == |recs| ==> MaxRows(recs) == 0 && y == if recs == [] then [] else [recs[|recs| - 1].plane])
    && (j < |recs| ==> MaxRows(recs) > 0 && Rows(y) == MaxRows(recs) && Aligned(recs[j..], y, MaxRows(recs), nc))
  }

  /** On a stack with rows, the old planes and the new one are each padded
      to the larger of the two row counts and the new plane goes on top. */
  lemma StackOnMeaning(y: seq<ArdfImages.Matrix>, d: ArdfImages.Matrix, nc: nat)
    requires Rows(y) != 0
    ensures var r, rows := StackOn(y, d, nc), if Rows(y) < |d| then |d| else Rows(y);
      && |r| == |y| + 1 && r[|y|] == Pad(d, rows, nc)
      && forall k :: 0 <= k < |y| ==> r[k] == Pad(y[k], rows, nc)
  {
  }

  /** Stacking one more point keeps that shape. */
  lemma PlanesStep(recs: seq<PointRec>, y0: seq<ArdfImages.Matrix>, nc: nat)
    requires recs != [] && PlanesAfter(recs[..|recs| - 1], y0, nc)
    ensures PlanesAfter(recs, StackOn(y0, recs[|recs| - 1].plane, nc), nc)
  {
    var init, p := recs[..|recs| - 1], recs[|recs| - 1];
    var j := LeadingEmpty(init);
    if j < |init| {
      assert recs[j..] == init[j..] + [p];
      AlignedGrow(init[j..], p, y0, MaxRows(init), MaxRows(recs), nc);
    } else {
      assert Rows(y0) == 0;
    }
  }

  lemma AlignedGrow(rs: seq<PointRec>, p: PointRec, y0: seq<ArdfImages.Matrix>, m0: nat, m: nat, nc: nat)
    requires Aligned(rs, y0, m0, nc) && Rows(y0) == m0 > 0
    requires m == if m0 < |p.plane| then |p.plane| else m0
    ensures var y := StackOn(y0, p.plane, nc);
            Aligned(rs + [p], y, m, nc) && Rows(y) == m
  {
    var rs1 := rs + [p];
    StackOnMeaning(y0, p.plane, nc);
    var y := StackOn(y0, p.plane, nc);
    forall k | 0 <= k < |y|
      ensures |rs1[k].plane| <= m && y[k] == Pad(rs1[k].plane, m, nc)
    {
      if k < |y0| {
        assert rs1[k] == rs[k];
        assert |rs[k].plane| <= m0 && y0[k] == Pad(rs[k].plane, m0, nc);
        PadPad(rs[k].plane, m0, m, nc);
      }
    }
    assert Rows(y) == |y[0]|;
  }

  /** The stacked planes of a line. The planes of the leading row-less
      points are dropped, so that from the first point with rows on, plane
      `k` belongs to point `k + LeadingEmpty(recs)`, padded with zero rows
      to the longest point of the line. */
  lemma {:induction false} LinePlanes(recs: seq<PointRec>, nc: nat)
    ensures PlanesAfter(recs, LineOf(recs, nc).y, nc)
    decreases |recs|
  {
    if recs != [] {
      var init := recs[..|recs| - 1];
      LinePlanes(init, nc);
      PlanesStep(recs, LineOf(init, nc).y, nc);
    }
  }

  // ---------------------------------------------------------------------
  // Retrace flip, point selection and the whole extraction
  // ---------------------------------------------------------------------

  /** Every list reversed and the planes in reverse order (`np.flip(axis=2)`). */
  function Flipped(g: Line): Line {
    Line(PyOps.Reversed(g.numbForce), PyOps.Reversed(g.numbLine), PyOps.Reversed(g.numbPoint),
         PyOps.Reversed(g.locPrev), PyOps.Reversed(g.locNext), PyOps.Reversed(g.name),
         PyOps.Reversed(g.y), PyOps.Reversed(g.pnt0), PyOps.Reversed(g.pnt1), PyOps.Reversed(g.pnt2))
  }

  /** Flipping twice gives the line back. */
  lemma FlippedTwice(g: Line)
    ensures Flipped(Flipped(g)) == g
  {
    PyOps.ReversedTwice(g.numbForce);
    PyOps.ReversedTwice(g.numbLine);
    PyOps.ReversedTwice(g.numbPoint);
    PyOps.ReversedTwice(g.locPrev);
    PyOps.ReversedTwice(g.locNext);
    PyOps.ReversedTwice(g.name);
    PyOps.ReversedTwice(g.y);
    PyOps.ReversedTwice(g.pnt0);
    PyOps.ReversedTwice(g.pnt1);
    PyOps.ReversedTwice(g.pnt2);
  }

  /** One point of a line: the `p`-th entry of every list and the `p`-th plane. */
  datatype Curve = Curve(numbForce: nat, numbLine: nat, numbPoint: nat, locPrev: nat, locNext: nat,
                         name: seq<byte>, y: ArdfImages.Matrix, pnt0: nat, pnt1: nat, pnt2: nat)

  /** `G[key][p]` for every key, `G['y'][:, :, p]` for the planes (Python
      indices, so a negative `p` counts from the end). */
  function PointOf(g: Line, p: int): Result<Curve, Error> {
    var force :- PyOps.IndexOr(g.numbForce, p, BadIndex);
    var line :- PyOps.IndexOr(g.numbLine, p, BadIndex);
    var point :- PyOps.IndexOr(g.numbPoint, p, BadIndex);
    var prev :- PyOps.IndexOr(g.locPrev, p, BadIndex);
    var next :- PyOps.IndexOr(g.locNext, p, BadIndex);
    var name :- PyOps.IndexOr(g.name, p, BadIndex);
    var y :- PyOps.IndexOr(g.y, p, BadIndex);
    var pnt0 :- PyOps.IndexOr(g.pnt0, p, BadIndex);
    var pnt1 :- PyOps.IndexOr(g.pnt1, p, BadIndex);
    var pnt2 :- PyOps.IndexOr(g.pnt2, p, BadIndex);
    Success(Curve(force, line, point, prev, next, name, y, pnt0, pnt1, pnt2))
  }

  /** What `extract_ardf_data` returns: `{}` when the line has no data, the
      whole line, or one point of it. */
  datatype Extracted = NoData | WholeLine(line: Line) | OnePoint(curve: Curve)

  /** The end of the function: a line whose first point number is not 0 is
      a retrace and is flipped; then the whole line or one point of it. */
  function Finish(g: Line, getPoint: int): Result<Extracted, Error> {
    var first :- PyOps.IndexOr(g.numbPoint, 0, BadIndex);
    var h := if first != 0 then Flipped(g) else g;
    if getPoint == -1 then Success(WholeLine(h))
    else
      var c :- PointOf(h, getPoint);
      Success(OnePoint(c))
  }

  /** The structure handed in, or the one `read_ardf_metadata` parses. */
  function StructureOf(data: seq<byte>, filename: string, fileStruct: Option<ReadArdf.Structure>)
    : Result<ReadArdf.Structure, Error>
  {
    match fileStruct
    case Some(s) => Success(s)
    case None =>
      var m :- ReadArdf.MetadataOf(data, filename);
      Success(m.structure)
  }

  /** `extract_ardf_data(filename, get_line, get_point, trace, file_struct)`
      on the file `data`. */
  function ExtractOf(data: seq<byte>, filename: string, getLine: int, getPoint: int, trace: int,
                     fileStruct: Option<ReadArdf.Structure>): Result<Extracted, Error>
  {
    var s :- StructureOf(data, filename, fileStruct);
    ExtractFrom(data, s, getLine, getPoint, trace)
  }

  /** The extraction once the structure `s` is known. */
  function ExtractFrom(data: seq<byte>, s: ReadArdf.Structure, getLine: int, getPoint: int, trace: int)
    : Result<Extracted, Error>
  {
    var at :- Locate(s, getLine, trace);
    if at.loc == 0 then Success(NoData)
    else
      var recs :- PointsFrom(data, at.loc, at.points, at.channels, []);
      Finish(LineOf(recs.value, at.channels), getPoint)
  }

  method ExtractArdfData(data: seq<byte>, filename: string, getLine: int, getPoint: int, trace: int,
                         fileStruct: Option<ReadArdf.Structure>) returns (r: Result<Extracted, Error>)
    ensures r == ExtractOf(data, filename, getLine, getPoint, trace, fileStruct)
  {
    var F: ReadArdf.Structure;
    if fileStruct.Some? {
      F := fileStruct.value;
    } else {
      var m :- ReadArdf.ReadArdfMetadata(data, filename);
      F := m.structure;
    }
    r := ExtractWith(data, F, getLine, getPoint, trace);
  }

  method ExtractWith(data: seq<byte>, F: ReadArdf.Structure, getLine: int, getPoint: int, trace: int)
    returns (r: Result<Extracted, Error>)
    ensures r == ExtractFrom(data, F, getLine, getPoint, trace)
  {
    var at :- Locate(F, getLine, trace);
    if at.loc == 0 {
      return Success(NoData);
    }
    var fid := new Cursor(data);
    var _ := fid.Seek(at.loc);
    var G :- ReadLine(fid, at.points, at.channels);
    r := Finish(G, getPoint);
  }

  /** A line that is read has one entry per point of the volume's
      definition in every list, in scan order: reversed when the first
      point read has a number other than 0. */
  lemma ExtractLineMeaning(data: seq<byte>, s: ReadArdf.Structure, getLine: int, trace: int, h: Line)
    requires ExtractFrom(data, s, getLine, -1, trace) == Success(WholeLine(h))
    ensures var at := Locate(s, getLine, trace).value;
      && at.loc != 0 && at.points >= 1
      && var recs := PointsFrom(data, at.loc, at.points, at.channels, []).value.value;
      && var g := LineOf(recs, at.channels);
      && |recs| == at.points
      && h == (if recs[0].vset.point != 0 then Flipped(g) else g)
      && |h.numbPoint| == |h.name| == |h.pnt1| == at.points
  {
    var at := Locate(s, getLine, trace).value;
    var pts := PointsFrom(data, at.loc, at.points, at.channels, []).value;
    var recs := pts.value;
    PointsLength(data, at.loc, at.points, at.channels, [], recs, pts.after);
    LineLists(recs, at.channels);
  }

  /** Asking for one point gives that point of the line the whole-line
      call returns: the same flip, then the Python index. */
  lemma PointIsLineAt(data: seq<byte>, s: ReadArdf.Structure, getLine: int, getPoint: int, trace: int)
    requires getPoint != -1
    ensures var one, all := ExtractFrom(data, s, getLine, getPoint, trace), ExtractFrom(data, s, getLine, -1, trace);
      && (all.Failure? ==> one == all)
      && (all == Success(NoData) ==> one == all)
      && (all.Success? && all.value.WholeLine? ==>
            match PointOf(all.value.line, getPoint)
            case Success(c) => one == Success(OnePoint(c))
            case Failure(e) => one == Failure(e))
  {
  }

  /** A line whose pointer is 0 has no data, whatever point is asked for;
      any other line gives data or fails. */
  lemma ExtractNoData(data: seq<byte>, s: ReadArdf.Structure, getLine: int, getPoint: int, trace: int)
    requires Locate(s, getLine, trace).Success?
    ensures Locate(s, getLine, trace).value.loc == 0 <==> ExtractFrom(data, s, getLine, getPoint, trace) == Success(NoData)
  {
    var at := Locate(s, getLine, trace).value;
    if at.loc != 0 {
      var e := ExtractFrom(data, s, getLine, getPoint, trace);
      if e.Success? {
        var recs := PointsFrom(data, at.loc, at.points, at.channels, []).value.value;
        assert e == Finish(LineOf(recs, at.channels), getPoint);
      }
    }
  }
}
