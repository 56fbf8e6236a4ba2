/** The volume part of `read_ardf_metadata`: for every force volume its
    table of contents, text table and VDEF record, the chain of VCHN
    channel records closed by an XDEF record, the VTOC index table of line
    pointers followed by an MLOV record, and the two VSET samples that tell
    the scan direction and whether the trace or the retrace comes first. */
module ArdfVolumes {
  import opened Wrappers
  import opened Bytes
  import opened Errors
  import opened Stream
  import opened UtilsArdf
  import opened ArdfImages
  import RecordLayout
  import PyOps

  // ---------------------------------------------------------------------
  // VCHN and XDEF
  // ---------------------------------------------------------------------

  /** `F['volm<n>']['xdef']`. */
  datatype Xdef = Xdef(sizeTable: nat, text: string)

  /** The channel names of a volume and its closing XDEF record. */
  datatype Channels = Channels(vchn: seq<string>, xdef: Xdef)

  /** Bytes left in a file of `len` bytes from `pos` on. */
  function Remaining(len: nat, pos: nat): nat {
    if pos <= len then len - pos else 0
  }

  /** One record of the chain: a VCHN record gives the 32-character name
      that follows its pointer (the rest of the record is skipped); an XDEF
      record gives the size and text of the extra definition and ends the
      chain; any other tag is rejected. */
  datatype Link = Channel(name: string) | Last(xdef: Xdef)

  function LinkAt(data: seq<byte>, p: nat): Result<Parsed<Link>, Error> {
    var ptr :- PointerAt(data, p);
    if ptr.value.tag == "VCHN" then
      var name := Latin1At(data, ptr.after, 32);
      var rest :- ReadBytesAt(data, name.after, ptr.value.size - 16 - 32);
      Success(Parsed(Channel(name.value), rest.after))
    else if ptr.value.tag == "XDEF" then
      var skip := BytesAt(data, ptr.after, 4);
      var sizeTable := FromBytesAt(data, skip.after, 4);
      var text := Latin1At(data, sizeTable.after, sizeTable.value);
      var rest :- ReadBytesAt(data, text.after, ptr.value.size - 16 - 8 - sizeTable.value);
      Success(Parsed(Last(Xdef(sizeTable.value, text.value)), rest.after))
    else
      Failure(NotRecognized(ptr.value.tag))
  }

  /** A record that is read moves the cursor forward, stays inside the
      file, and a channel name has at most 32 characters. */
  lemma LinkAdvances(data: seq<byte>, p: nat)
    ensures LinkAt(data, p).Success? ==>
      && p < LinkAt(data, p).value.after <= |data|
      && (LinkAt(data, p).value.value.Channel? ==> |LinkAt(data, p).value.value.name| <= 32)
  {
    RecordLayout.PointerInFile(data, p);
  }

  /** A record whose tag is neither VCHN nor XDEF stops the volume with
      "<tag> not recognized". */
  lemma LinkRejects(data: seq<byte>, p: nat)
    requires PointerAt(data, p).Success?
    requires PointerAt(data, p).value.value.tag !in {"VCHN", "XDEF"}
    ensures LinkAt(data, p) == Failure(NotRecognized(PointerAt(data, p).value.value.tag))
  {
  }

  /** A VCHN record declared shorter than 47 bytes, or an XDEF record
      declared more than one byte short of its text, asks `read` for less
      than -1 bytes and raises. */
  lemma LinkShortSize(data: seq<byte>, p: nat)
    requires PointerAt(data, p).Success?
    ensures var ptr := PointerAt(data, p).value.value;
      ptr.tag == "VCHN" && ptr.size < 47 ==> LinkAt(data, p) == Failure(NegativeRead)
    ensures var ptr := PointerAt(data, p).value.value;
      ptr.tag == "XDEF" && p + 24 <= |data| && ptr.size - 24 - LE(data[p + 20..p + 24]) < -1 ==>
        LinkAt(data, p) == Failure(NegativeRead)
  {
    RecordLayout.PointerInFile(data, p);
    if p + 24 <= |data| {
      RecordLayout.FieldInFile(data, p + 20, 4);
      RecordLayout.BytesInFile(data, p + 16, 4);
    }
  }

  method ReadLink(fid: Cursor) returns (r: Result<Link, Error>)
    modifies fid
    ensures Agrees(r, LinkAt(fid.data, old(fid.pos)), fid.pos)
  {
    var ptr :- ReadArdfPointer(fid, -1);
    if ptr.tag == "VCHN" {
      var textSize := 32;
      var theChannel := fid.ReadLatin1(textSize);
      var remainingSize := ptr.size - 16 - textSize;
      var _ :- fid.ReadBytes(remainingSize);
      return Success(Channel(theChannel));
    } else if ptr.tag == "XDEF" {
      var _ := fid.Read(4);
      var sizeTable := fid.ReadFromBytes(4);
      var text := fid.ReadLatin1(sizeTable);
      var remaining := ptr.size - 16 - 8 - sizeTable;
      var _ :- fid.ReadBytes(remaining);
      return Success(Last(Xdef(sizeTable, text)));
    } else {
      return Failure(NotRecognized(ptr.tag));
    }
  }

  /** The chain from `p` on, after the channel names `vchn`. */
  function ChannelsAt(data: seq<byte>, p: nat, vchn: seq<string>): Result<Parsed<Channels>, Error>
    decreases Remaining(|data|, p)
  {
    var l :- LinkAt(data, p);
    LinkAdvances(data, p);
    match l.value
    case Channel(name) => ChannelsAt(data, l.after, vchn + [name])
    case Last(x) => Success(Parsed(Channels(vchn, x), l.after))
  }

  method ReadChannels(fid: Cursor) returns (r: Result<Channels, Error>)
    modifies fid
    ensures Agrees(r, ChannelsAt(fid.data, old(fid.pos), []), fid.pos)
  {
    ghost var spec := ChannelsAt(fid.data, fid.pos, []);
    var vchn: seq<string> := [];
    var xdef := Xdef(0, "");
    var done := false;
    while !done
      invariant spec == if done then Success(Parsed(Channels(vchn, xdef), fid.pos))
                        else ChannelsAt(fid.data, fid.pos, vchn)
      decreases if done then 0 else Remaining(|fid.data|, fid.pos) + 1
    {
      LinkAdvances(fid.data, fid.pos);
      var l :- ReadLink(fid);
      match l
      case Channel(theChannel) =>
        vchn := vchn + [theChannel];
      case Last(x) =>
        xdef := x;
        done := true;
    }
    return Success(Channels(vchn, xdef));
  }

  /** The chain keeps the names it already has and adds one name of at
      most 32 characters per VCHN record, in file order. */
  lemma {:induction false} ChannelsExtend(data: seq<byte>, p: nat, vchn: seq<string>)
    requires ChannelsAt(data, p, vchn).Success?
    ensures var c := ChannelsAt(data, p, vchn).value.value;
      && |c.vchn| >= |vchn| && c.vchn[..|vchn|] == vchn
      && forall k :: |vchn| <= k < |c.vchn| ==> |c.vchn[k]| <= 32
    decreases Remaining(|data|, p)
  {
    var l := LinkAt(data, p).value;
    LinkAdvances(data, p);
    if l.value.Channel? {
      var next := vchn + [l.value.name];
      ChannelsExtend(data, l.after, next);
      var c := ChannelsAt(data, p, vchn).value.value;
      assert c == ChannelsAt(data, l.after, next).value.value;
      assert c.vchn[..|next|] == next;
      assert c.vchn[..|next|][..|vchn|] == c.vchn[..|vchn|];
      assert c.vchn[|vchn|] == c.vchn[..|next|][|vchn|];
      forall k | |vchn| <= k < |c.vchn|
        ensures |c.vchn[k]| <= 32
      {
      }
    }
  }

  // ---------------------------------------------------------------------
  // VSET samples
  // ---------------------------------------------------------------------

  /** What the VSET samples record on a volume: `F['volm<n>']['line']`
      (keyed by the line number `r` of `vset<r>`), `scanDown` and `trace`. */
  datatype Samples = Samples(line: map<int, Vset>, scanDown: Option<bool>, trace: Option<bool>)

  const NoSamples: Samples := Samples(map[], None, None)

  /** The sample for line `r`: the pointer of line `r - 1` (a Python index,
      so `-1` is the last line); a zero pointer reads nothing, otherwise
      the VSET there sets `scanDown` when its line number is not `r - 1`
      and `trace` when its point number is 0. */
  function SampleAt(data: seq<byte>, pos: nat, lp: seq<nat>, r: int, s: Samples): Result<Parsed<Samples>, Error> {
    var loc :- PyOps.IndexOr(lp, r - 1, BadIndex);
    if loc != 0 then
      var v :- VsetFrom(data, pos, loc);
      Success(Parsed(Samples(s.line[r := v.value], Some(v.value.line != r - 1), Some(v.value.point == 0)), v.after))
    else
      Success(Parsed(s, pos))
  }

  /** The samples for the lines listed in `rs`, from the `i`-th on. */
  function SamplesFrom(data: seq<byte>, pos: nat, lp: seq<nat>, rs: seq<int>, i: nat, s: Samples)
    : Result<Parsed<Samples>, Error>
    decreases |rs| - i
  {
    if i >= |rs| then Success(Parsed(s, pos))
    else
      var a :- SampleAt(data, pos, lp, rs[i], s);
      SamplesFrom(data, a.after, lp, rs, i + 1, a.value)
  }

  method ReadSamples(fid: Cursor, lp: seq<nat>, rs: seq<int>) returns (r: Result<Samples, Error>)
    modifies fid
    ensures Agrees(r, SamplesFrom(fid.data, old(fid.pos), lp, rs, 0, NoSamples), fid.pos)
  {
    ghost var spec := SamplesFrom(fid.data, fid.pos, lp, rs, 0, NoSamples);
    var s := NoSamples;
    for i := 0 to |rs|
      invariant spec == SamplesFrom(fid.data, fid.pos, lp, rs, i, s)
    {
      s :- ReadSample(fid, lp, rs[i], s);
    }
    return Success(s);
  }

  method ReadSample(fid: Cursor, lp: seq<nat>, r: int, s: Samples) returns (t: Result<Samples, Error>)
    modifies fid
    ensures Agrees(t, SampleAt(fid.data, old(fid.pos), lp, r, s), fid.pos)
  {
    var loc :- PyOps.IndexOr(lp, r - 1, BadIndex);
    if loc != 0 {
      var v :- ReadVset(fid, loc);
      return Success(Samples(s.line[r := v], Some(v.line != r - 1), Some(v.point == 0)));
    }
    return Success(s);
  }

  /** The VSET that the sample for line `r` reads, if its pointer is not zero. */
  function VsetOfLine(data: seq<byte>, lp: seq<nat>, r: int): Option<Vset> {
    match PyOps.Index(lp, r - 1)
    case None => None
    case Some(loc) =>
      if loc == 0 then None
      else match VsetAt(data, loc)
        case Success(v) => Some(v.value)
        case Failure(_) => None
  }

  /** The two samples `for r in [1, lines]`: the one for the last line
      wins, the one for line 1 counts only when the last line's pointer is
      zero, and with both pointers zero the volume has no scan direction. */
  lemma {:induction false} SamplesMeaning(data: seq<byte>, pos: nat, lp: seq<nat>, lines: nat)
    requires SamplesFrom(data, pos, lp, [1, lines], 0, NoSamples).Success?
    ensures var s := SamplesFrom(data, pos, lp, [1, lines], 0, NoSamples).value.value;
      var first, last := VsetOfLine(data, lp, 1), VsetOfLine(data, lp, lines);
      && (s.scanDown.Some? <==> first.Some? || last.Some?)
      && (s.trace.Some? <==> s.scanDown.Some?)
      && (last.Some? ==> s.scanDown == Some(last.value.line != lines - 1) && s.trace == Some(last.value.point == 0))
      && (last.None? && first.Some? ==> s.scanDown == Some(first.value.line != 0) && s.trace == Some(first.value.point == 0))
      && (forall r :: r in s.line ==> (r == 1 || r == lines) && VsetOfLine(data, lp, r) == Some(s.line[r]))
  {
    var a := SampleAt(data, pos, lp, 1, NoSamples).value;
    SampleMeaning(data, pos, lp, 1, NoSamples);
    assert SamplesFrom(data, pos, lp, [1, lines], 0, NoSamples) == SamplesFrom(data, a.after, lp, [1, lines], 1, a.value);
    var b := SampleAt(data, a.after, lp, lines, a.value).value;
    SampleMeaning(data, a.after, lp, lines, a.value);
    assert SamplesFrom(data, a.after, lp, [1, lines], 1, a.value) == Success(b);
  }

  /** One sample: with a non-zero pointer it records the VSET it reads and
      the direction and order that VSET gives; otherwise nothing changes. */
  lemma SampleMeaning(data: seq<byte>, pos: nat, lp: seq<nat>, r: int, s: Samples)
    requires SampleAt(data, pos, lp, r, s).Success?
    ensures var t := SampleAt(data, pos, lp, r, s).value.value;
      match VsetOfLine(data, lp, r)
      case None => t == s
      case Some(v) => t == Samples(s.line[r := v], Some(v.line != r - 1), Some(v.point == 0))
  {
  }

  // ---------------------------------------------------------------------
  // Lines missing from a partial file
  // ---------------------------------------------------------------------

  /** `[i for i, p in enumerate(lp) if p == 0]`, from index `i` on. */
  function ZerosFrom(lp: seq<nat>, i: nat): seq<int>
    decreases |lp| - i
  {
    if i >= |lp| then [] else (if lp[i] == 0 then [i] else []) + ZerosFrom(lp, i + 1)
  }

  /** The list holds exactly the indices of the zero pointers, ascending. */
  lemma {:induction false} ZerosMeaning(lp: seq<nat>, i: nat)
    ensures forall x :: x in ZerosFrom(lp, i) <==> i <= x < |lp| && lp[x] == 0
    ensures forall a, b :: 0 <= a < b < |ZerosFrom(lp, i)| ==> ZerosFrom(lp, i)[a] < ZerosFrom(lp, i)[b]
    decreases |lp| - i
  {
    if i < |lp| {
      ZerosMeaning(lp, i + 1);
      var rest := ZerosFrom(lp, i + 1);
      forall j | 0 <= j < |rest|
        ensures rest[j] > i
      {
        assert rest[j] in rest;
      }
    }
  }

  /** The zero-pointer lines of one volume and how far around them to cut:
      `idx_zero`, `inc_min` and `inc_max`. */
  datatype Gap = Gap(idx: seq<int>, incMin: nat, incMax: nat)

  /** `lines - idx_zero` element by element. */
  function Mirror(lines: int, idx: seq<int>): (m: seq<int>)
    ensures |m| == |idx| && forall k :: 0 <= k < |idx| ==> m[k] == lines - idx[k]
  {
    seq(|idx|, k requires 0 <= k < |idx| => lines - idx[k])
  }

  /** For a volume scanned downwards the line indices are mirrored to
      `lines - i` and the cut extends one further at the top instead of at
      the bottom. */
  function ZeroOf(lp: seq<nat>, scanDown: Option<bool>, lines: nat): (z: Gap)
    ensures |z.idx| == |ZerosFrom(lp, 0)|
    ensures scanDown != Some(true) ==> z == Gap(ZerosFrom(lp, 0), 1, 0)
    ensures scanDown == Some(true) ==>
      z.incMin == 0 && z.incMax == 1 && (forall k :: 0 <= k < |z.idx| ==> z.idx[k] == lines - ZerosFrom(lp, 0)[k])
  {
    var idx := ZerosFrom(lp, 0);
    if scanDown == Some(true) then Gap(Mirror(lines, idx), 0, 1)
    else Gap(idx, 1, 0)
  }

  /** The zero-pointer lines the partial-file handling computes for a volume. */
  function GapOf(v: Volume): Gap {
    match LinePointers(v.idx)
    case Success(lp) => ZeroOf(lp, v.samples.scanDown, v.vdef.lines)
    case Failure(_) => Gap([], 1, 0)
  }

  // ---------------------------------------------------------------------
  // One volume
  // ---------------------------------------------------------------------

  /** `F['volm<n>']`. */
  datatype Volume = Volume(toc: Toc, ttoc: Toc, vdef: Def, vchn: seq<string>, xdef: Xdef, idx: Toc,
                           samples: Samples)

  /** The VTOC table where the channel chain ends, the MLOV record that
      follows it, and the samples of lines 1 and `lines`. */
  function IndexAt(data: seq<byte>, pos: nat, lines: nat): Result<Parsed<(Toc, Samples)>, Error> {
    var idx :- TocFrom(data, pos, -1, "VTOC");
    var mlov :- PointerFrom(data, idx.after, -1);
    :- CheckType(mlov.value.tag, "MLOV", mlov.after);
    var lp :- LinePointers(idx.value);
    var s :- SamplesFrom(data, mlov.after, lp, [1, lines], 0, NoSamples);
    Success(Parsed((idx.value, s.value), s.after))
  }

  method ReadIndex(fid: Cursor, lines: nat) returns (r: Result<(Toc, Samples), Error>)
    modifies fid
    ensures Agrees(r, IndexAt(fid.data, old(fid.pos), lines), fid.pos)
  {
    var idx :- ReadToc(fid, -1, "VTOC");
    var mlov :- ReadArdfPointer(fid, -1);
    :- CheckType(mlov.tag, "MLOV", fid.pos);
    var lp :- LinePointers(idx);
    var s :- ReadSamples(fid, lp, [1, lines]);
    return Success((idx, s));
  }

  /** What follows a volume's VDEF: its channels, then its index. */
  function BodyAt(data: seq<byte>, pos: nat, lines: nat): Result<Parsed<(Channels, Toc, Samples)>, Error> {
    var ch :- ChannelsAt(data, pos, []);
    var ix :- IndexAt(data, ch.after, lines);
    Success(Parsed((ch.value, ix.value.0, ix.value.1), ix.after))
  }

  method ReadBody(fid: Cursor, lines: nat) returns (r: Result<(Channels, Toc, Samples), Error>)
    modifies fid
    ensures Agrees(r, BodyAt(fid.data, old(fid.pos), lines), fid.pos)
  {
    var ch :- ReadChannels(fid);
    var ix :- ReadIndex(fid, lines);
    return Success((ch, ix.0, ix.1));
  }

  /** The volume whose VOLM table is at `pnt`. All its records are reached
      from the absolute pointer. */
  function VolumeAt(data: seq<byte>, pnt: nat): Result<Parsed<Volume>, Error> {
    var h :- HeadAt(data, pnt, "VOLM", "VDEF");
    var b :- BodyAt(data, h.after, h.value.definition.lines);
    var ch, idx, s := b.value.0, b.value.1, b.value.2;
    Success(Parsed(Volume(h.value.toc, h.value.ttoc, h.value.definition, ch.vchn, ch.xdef, idx, s), b.after))
  }

  /** A volume that is read has an index table of line pointers. */
  lemma VolumeHasLines(data: seq<byte>, pnt: nat)
    requires VolumeAt(data, pnt).Success?
    ensures LinePointers(VolumeAt(data, pnt).value.value.idx).Success?
  {
    var h := HeadAt(data, pnt, "VOLM", "VDEF").value;
    BodyHasLines(data, h.after, h.value.definition.lines);
  }

  lemma BodyHasLines(data: seq<byte>, pos: nat, lines: nat)
    requires BodyAt(data, pos, lines).Success?
    ensures LinePointers(BodyAt(data, pos, lines).value.value.1).Success?
  {
    var ch := ChannelsAt(data, pos, []).value;
    IndexHasLines(data, ch.after, lines);
  }

  lemma IndexHasLines(data: seq<byte>, pos: nat, lines: nat)
    requires IndexAt(data, pos, lines).Success?
    ensures LinePointers(IndexAt(data, pos, lines).value.value.0).Success?
  {
  }

  /** `read_ardf_metadata`'s volume step: the volume, then its zero-pointer
      lines, mirrored for a downward scan. */
  method ReadVolume(fid: Cursor, pnt: nat) returns (r: Result<(Volume, Gap), Error>)
    modifies fid
    ensures VolumeAt(fid.data, pnt).Failure? ==> r == Failure(VolumeAt(fid.data, pnt).error)
    ensures VolumeAt(fid.data, pnt).Success? ==>
      && r == Success((VolumeAt(fid.data, pnt).value.value, GapOf(VolumeAt(fid.data, pnt).value.value)))
      && fid.pos == VolumeAt(fid.data, pnt).value.after
  {
    var h :- ReadHead(fid, pnt, "VOLM", "VDEF");
    var b :- ReadBody(fid, h.definition.lines);
    var ch, idx, s := b.0, b.1, b.2;
    var v := Volume(h.toc, h.ttoc, h.definition, ch.vchn, ch.xdef, idx, s);
    VolumeHasLines(fid.data, pnt);
    var lp := LinePointers(idx).value;
    var idxZero := ZerosFrom(lp, 0);
    var incMin, incMax := 1, 0;
    if s.scanDown == Some(true) {
      var lines := h.definition.lines;
      idxZero := Mirror(lines, idxZero);
      incMin, incMax := 0, 1;
    }
    return Success((v, Gap(idxZero, incMin, incMax)));
  }

  /** What the volume loop builds: `F['volm<n>']` for each volume and the
      zero-pointer lines of the last one (`idx_zero` is rebound by every
      volume and unbound when there is none). */
  datatype Volumes = Volumes(volumes: seq<Volume>, gap: Option<Gap>)

  function VolumesFrom(data: seq<byte>, pos: nat, pnts: seq<nat>, k: nat, acc: Volumes): Result<Parsed<Volumes>, Error>
    decreases |pnts| - k
  {
    if k >= |pnts| then Success(Parsed(acc, pos))
    else
      var a :- VolumeAt(data, pnts[k]);
      VolumesFrom(data, a.after, pnts, k + 1, Volumes(acc.volumes + [a.value], Some(GapOf(a.value))))
  }

  method ReadVolumes(fid: Cursor, pnts: seq<nat>) returns (r: Result<Volumes, Error>)
    modifies fid
    ensures Agrees(r, VolumesFrom(fid.data, old(fid.pos), pnts, 0, Volumes([], None)), fid.pos)
  {
    ghost var spec := VolumesFrom(fid.data, fid.pos, pnts, 0, Volumes([], None));
    var acc := Volumes([], None);
    for n := 0 to |pnts|
      invariant spec == VolumesFrom(fid.data, fid.pos, pnts, n, acc)
    {
      var v :- ReadVolume(fid, pnts[n]);
      acc := Volumes(acc.volumes + [v.0], Some(v.1));
      assert fid.pos == VolumeAt(fid.data, pnts[n]).value.after;
    }
    return Success(acc);
  }

  /** The volume loop yields one record per VOLM pointer, each read where
      its pointer says, and the zero-pointer lines of the last volume. */
  lemma {:induction false} VolumesMeaning(data: seq<byte>, pos: nat, pnts: seq<nat>, k: nat, acc: Volumes)
    requires k <= |pnts| && |acc.volumes| == k
    requires VolumesFrom(data, pos, pnts, k, acc).Success?
    ensures var out := VolumesFrom(data, pos, pnts, k, acc).value.value;
      && |out.volumes| == |pnts|
      && out.volumes[..k] == acc.volumes
      && (forall j :: k <= j < |pnts| ==> VolumeRead(data, pnts[j], out.volumes[j]))
      && (k < |pnts| ==> out.gap == Some(GapOf(out.volumes[|pnts| - 1])))
      && (k == |pnts| ==> out.gap == acc.gap)
    decreases |pnts| - k
  {
    if k < |pnts| {
      VolumesStep(data, pos, pnts, k, acc);
      var a := VolumeAt(data, pnts[k]).value;
      var acc' := Volumes(acc.volumes + [a.value], Some(GapOf(a.value)));
      VolumesMeaning(data, a.after, pnts, k + 1, acc');
      var out := VolumesFrom(data, pos, pnts, k, acc).value.value;
      PrefixStep(out.volumes, acc'.volumes, k);
      assert acc'.volumes[..k] == acc.volumes;
      assert VolumeRead(data, pnts[k], out.volumes[k]);
      forall j | k < j < |pnts|
        ensures VolumeRead(data, pnts[j], out.volumes[j])
      {
      }
    }
  }

  /** One turn of the volume loop. */
  lemma VolumesStep(data: seq<byte>, pos: nat, pnts: seq<nat>, k: nat, acc: Volumes)
    requires k < |pnts| && VolumesFrom(data, pos, pnts, k, acc).Success?
    ensures VolumeAt(data, pnts[k]).Success?
    ensures var a := VolumeAt(data, pnts[k]).value;
      VolumesFrom(data, pos, pnts, k, acc) ==
        VolumesFrom(data, a.after, pnts, k + 1, Volumes(acc.volumes + [a.value], Some(GapOf(a.value))))
  {
  }

  /** The volume record a pointer leads to. */
  predicate VolumeRead(data: seq<byte>, pnt: nat, v: Volume) {
    VolumeAt(data, pnt).Success? && VolumeAt(data, pnt).value.value == v
  }
}
