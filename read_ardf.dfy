/** `read_ardf_metadata`: the file header, the file and text tables, the
    main note, every image and every force volume, the combined notes, and
    the removal of the columns that belong to lines a partial file never
    recorded. */
module ReadArdf {
  import opened Wrappers
  import opened Bytes
  import opened Errors
  import opened Stream
  import opened UtilsArdf
  import opened Notes
  import opened ArdfImages
  import opened ArdfVolumes
  import RecordLayout
  import PyOps

  // ---------------------------------------------------------------------
  // Trimming a partial file
  // ---------------------------------------------------------------------

  function Min(s: seq<int>): (m: int)
    requires |s| > 0
    ensures m in s && forall x :: x in s ==> m <= x
  {
    if |s| == 1 then s[0]
    else
      var rest := Min(s[1..]);
      assert forall x :: x in s ==> x == s[0] || x in s[1..];
      if s[0] <= rest then s[0] else rest
  }

  function Max(s: seq<int>): (m: int)
    requires |s| > 0
    ensures m in s && forall x :: x in s ==> x <= m
  {
    if |s| == 1 then s[0]
    else
      var rest := Max(s[1..]);
      assert forall x :: x in s ==> x == s[0] || x in s[1..];
      if s[0] >= rest then s[0] else rest
  }

  /** One row without the columns `lo` up to `hi` (bounds past the end of
      the row stand for its end). */
  function Cut(row: seq<Word>, lo: nat, hi: nat): seq<Word>
    requires lo <= hi
  {
    row[..if lo <= |row| then lo else |row|] + row[if hi <= |row| then hi else |row|..]
  }

  /** `np.delete(y, slice(start, stop), axis=1)`: both bounds are
      normalised against the number of points the way a Python slice is,
      and an empty range deletes nothing. */
  function DeleteColumns(y: Stack, start: int, stop: int): Stack
    requires y.Stack?
  {
    var lo, hi := PyOps.SliceBound(y.points, start), PyOps.SliceBound(y.points, stop);
    if lo >= hi then y
    else
      Stack(y.lines, y.points - (hi - lo),
            seq(|y.planes|, n requires 0 <= n < |y.planes| =>
              seq(|y.planes[n]|, i requires 0 <= i < |y.planes[n]| => Cut(y.planes[n][i], lo, hi))))
  }

  /** The partial-file step after the volume loop: with the last volume's
      zero-pointer lines, delete from the smallest (less `inc_min`) to the
      largest (plus `inc_max`) along axis 1, if there is an image array;
      `idx_zero` is unbound when the file has no volume. */
  function Trimmed(y: Stack, gap: Option<Gap>): Result<Stack, Error> {
    match gap
    case None => Failure(Unbound("idx_zero"))
    case Some(g) =>
      if g.idx == [] || y.NoImages? then Success(y)
      else Success(DeleteColumns(y, Min(g.idx) - g.incMin, Max(g.idx) + g.incMax + 1))
  }

  /** Deleting columns keeps every plane and row, removes exactly the
      normalised range `lo..hi` from each row, and leaves a well-shaped
      array with that many fewer points. */
  lemma DeleteColumnsMeaning(y: Stack, start: int, stop: int)
    requires y.Stack? && WellShaped(y)
    ensures var z := DeleteColumns(y, start, stop);
      var lo, hi := PyOps.SliceBound(y.points, start), PyOps.SliceBound(y.points, stop);
      && z.Stack? && WellShaped(z) && z.lines == y.lines && |z.planes| == |y.planes|
      && (lo >= hi ==> z == y)
      && (lo < hi ==> z.points == y.points - (hi - lo))
      && (lo < hi ==> forall n, i :: 0 <= n < |y.planes| && 0 <= i < |y.planes[n]| ==>
            z.planes[n][i] == y.planes[n][i][..lo] + y.planes[n][i][hi..])
  {
  }

  /** Without zero pointers, or without images, nothing is deleted; for an
      upward scan the deletion starts one column before the first zero line
      and ends at the last one; for a downward scan it runs from the first
      mirrored index to one past the last. */
  lemma TrimmedMeaning(y: Stack, g: Gap)
    requires WellShaped(y)
    ensures Trimmed(y, Some(g)).Success?
    ensures g.idx == [] || y.NoImages? ==> Trimmed(y, Some(g)) == Success(y)
    ensures g.idx != [] && y.Stack? ==>
      Trimmed(y, Some(g)) == Success(DeleteColumns(y, Min(g.idx) - g.incMin, Max(g.idx) + g.incMax + 1))
    ensures Trimmed(y, None) == Failure(Unbound("idx_zero"))
  {
  }

  // ---------------------------------------------------------------------
  // The combined note
  // ---------------------------------------------------------------------

  /** The text parsed into `D['Notes']`: the main note, then the thumb note
      and the quick note when they were set. A quick note without a thumb
      note would read an unbound local. */
  function NoteText(main: string, thumb: Option<string>, quick: Option<string>): Result<string, Error> {
    if quick.Some? then
      if thumb.None? then Failure(Unbound("note_thumb")) else Success(main + thumb.value + quick.value)
    else if thumb.Some? then Success(main + thumb.value)
    else Success(main)
  }

  /** Once the image loop has run, the combined note never fails, and it
      is the main note followed by whichever of the thumb and quick notes
      were set, in that order. */
  lemma NoteTextMeaning(main: string, thumb: Option<string>, quick: Option<string>)
    requires quick.Some? ==> thumb.Some?
    ensures NoteText(main, thumb, quick).Success?
    ensures NoteText(main, thumb, quick).value ==
      main + thumb.GetOr("") + (if thumb.Some? then quick.GetOr("") else "")
  {
  }

  // ---------------------------------------------------------------------
  // The file header and the main note
  // ---------------------------------------------------------------------

  /** What precedes the images: the FTOC table, the TTOC table and the main note. */
  datatype Front = Front(ftoc: Toc, ttoc: Toc, numbNotes: nat, main: string)

  /** The ARDF pointer at offset 0, the FTOC table right after it, and the
      TTOC table `ftoc.sizeTable + 16` bytes into the file. */
  function HeaderAt(data: seq<byte>): Result<Parsed<Toc>, Error> {
    var hdr :- TypedPointerAt(data, 0, "ARDF");
    TocAt(data, hdr.after, "FTOC")
  }

  method ReadHeader(fid: Cursor) returns (r: Result<Toc, Error>)
    modifies fid
    ensures Agrees(r, HeaderAt(fid.data), fid.pos)
  {
    var hdr :- ReadArdfPointer(fid, 0);
    :- CheckType(hdr.tag, "ARDF", fid.pos);
    r := ReadToc(fid, -1, "FTOC");
  }

  function TablesAt(data: seq<byte>): Result<Parsed<(Toc, Toc)>, Error> {
    TablesAfter(data, HeaderAt(data))
  }

  /** The TTOC table once the header has been read. */
  function TablesAfter(data: seq<byte>, header: Result<Parsed<Toc>, Error>): Result<Parsed<(Toc, Toc)>, Error> {
    var ftoc :- header;
    var ttoc :- TocAt(data, ftoc.value.sizeTable + 16, "TTOC");
    Success(Parsed((ftoc.value, ttoc.value), ttoc.after))
  }

  method ReadTables(fid: Cursor) returns (r: Result<(Toc, Toc), Error>)
    modifies fid
    ensures Agrees(r, TablesAt(fid.data), fid.pos)
  {
    var ftoc :- ReadHeader(fid);
    var locTtoc := ftoc.sizeTable + 16;
    TocFromAt(fid.data, fid.pos, locTtoc, "TTOC");
    var ttoc :- ReadToc(fid, locTtoc, "TTOC");
    return Success((ftoc, ttoc));
  }

  /** The main note: the text at the first pointer of the TTOC table. */
  function FrontAt(data: seq<byte>): Result<Parsed<Front>, Error> {
    var t :- TablesAt(data);
    var pntText :- TextPointers(t.value.1);
    MainNoteAt(data, t.value, pntText)
  }

  /** The front once the tables and the TTOC text pointers are known. */
  function MainNoteAt(data: seq<byte>, tables: (Toc, Toc), pntText: seq<nat>): Result<Parsed<Front>, Error> {
    var loc :- PyOps.IndexOr(pntText, 0, BadIndex);
    var main :- TextAt(data, loc);
    Success(Parsed(Front(tables.0, tables.1, |pntText|, main.value), main.after))
  }

  method ReadFront(fid: Cursor) returns (r: Result<Front, Error>)
    modifies fid
    ensures Agrees(r, FrontAt(fid.data), fid.pos)
  {
    var t :- ReadTables(fid);
    var pntText :- TextPointers(t.1);
    var numbNotes := |pntText|;
    var loc :- PyOps.IndexOr(pntText, 0, BadIndex);
    var noteMain :- ReadText(fid, loc);
    return Success(Front(t.0, t.1, numbNotes, noteMain));
  }

  // ---------------------------------------------------------------------
  // The whole metadata
  // ---------------------------------------------------------------------

  /** `D['FileStructure']`. */
  datatype Structure = Structure(ftoc: Toc, ttoc: Toc, numbNotes: nat, numbImag: nat, images: seq<Image>,
                                 numbVolm: nat, volumes: seq<Volume>)

  /** The dictionary `read_ardf_metadata` returns. */
  datatype Metadata = Metadata(fileName: string, fileType: string, imageList: seq<string>, y: Stack,
                               notes: map<string, string>, channelList: seq<seq<string>>,
                               endNote: map<string, string>, structure: Structure)

  function ChannelList(vs: seq<Volume>): (c: seq<seq<string>>)
    ensures |c| == |vs| && forall k :: 0 <= k < |vs| ==> c[k] == vs[k].vchn
  {
    seq(|vs|, k requires 0 <= k < |vs| => vs[k].vchn)
  }

  /** What the reader knows once the image loop is over. */
  datatype ImagePart = ImagePart(front: Front, pntImag: seq<nat>, images: Images)

  /** The header, the main note and the image loop over the IMAG pointers
      of the FTOC table, which starts where the main note ends. */
  function ImagePartAt(data: seq<byte>): Result<Parsed<ImagePart>, Error> {
    var f :- FrontAt(data);
    var pntImag :- ImagePointers(f.value.ftoc);
    var imgs :- ImagesFrom(data, f.after, pntImag, 0, NoImage);
    Success(Parsed(ImagePart(f.value, pntImag, imgs.value), imgs.after))
  }

  method ReadImagePart(fid: Cursor) returns (r: Result<ImagePart, Error>)
    modifies fid
    ensures Agrees(r, ImagePartAt(fid.data), fid.pos)
  {
    var front :- ReadFront(fid);
    var pntImag :- ImagePointers(front.ftoc);
    var imgs :- ReadImages(fid, pntImag);
    return Success(ImagePart(front, pntImag, imgs));
  }

  /** The volume loop over the VOLM pointers of the FTOC table. */
  datatype VolumePart = VolumePart(pntVolm: seq<nat>, volumes: Volumes)

  function VolumePartAt(data: seq<byte>, pos: nat, ftoc: Toc): Result<Parsed<VolumePart>, Error> {
    var pntVolm :- VolumePointers(ftoc);
    var vols :- VolumesFrom(data, pos, pntVolm, 0, Volumes([], None));
    Success(Parsed(VolumePart(pntVolm, vols.value), vols.after))
  }

  method ReadVolumePart(fid: Cursor, ftoc: Toc) returns (r: Result<VolumePart, Error>)
    modifies fid
    ensures Agrees(r, VolumePartAt(fid.data, old(fid.pos), ftoc), fid.pos)
  {
    var pntVolm :- VolumePointers(ftoc);
    var vols :- ReadVolumes(fid, pntVolm);
    return Success(VolumePart(pntVolm, vols));
  }

  /** The metadata of the file `data` whose path is `filename`. */
  function MetadataOf(data: seq<byte>, filename: string): Result<Metadata, Error> {
    var a :- ImagePartAt(data);
    var f, imgs := a.value.front, a.value.images;
    var note :- NoteText(f.main, imgs.thumb, imgs.quick);
    var b :- VolumePartAt(data, a.after, f.ftoc);
    var y :- Trimmed(imgs.y, b.value.volumes.gap);
    Success(Metadata(PyOps.SplitExtRoot(PyOps.Basename(filename)), "ARDF", imgs.titles, y, NotesOf(note),
                     ChannelList(b.value.volumes.volumes), map["IsImage" := "1"],
                     Structure(f.ftoc, f.ttoc, f.numbNotes, |a.value.pntImag|, imgs.images,
                               |b.value.pntVolm|, b.value.volumes.volumes)))
  }

  method ReadArdfMetadata(data: seq<byte>, filename: string) returns (r: Result<Metadata, Error>)
    ensures r == MetadataOf(data, filename)
  {
    var fid := new Cursor(data);
    var fileName := PyOps.SplitExtRoot(PyOps.Basename(filename));
    var a :- ReadImagePart(fid);
    var front, imgs := a.front, a.images;
    var theNote :- NoteText(front.main, imgs.thumb, imgs.quick);
    var notes := ParseNotes(theNote);
    var b :- ReadVolumePart(fid, front.ftoc);
    var y :- Trimmed(imgs.y, b.volumes.gap);
    var endNote := map["IsImage" := "1"];
    return Success(Metadata(fileName, "ARDF", imgs.titles, y, notes, ChannelList(b.volumes.volumes), endNote,
                            Structure(front.ftoc, front.ttoc, front.numbNotes, |a.pntImag|, imgs.images,
                                      |b.pntVolm|, b.volumes.volumes)));
  }

  // ---------------------------------------------------------------------
  // Properties of the whole reader
  // ---------------------------------------------------------------------

  /** A file that does not start with an ARDF pointer is rejected with
      the offending tag at offset 0. */
  lemma NotArdf(data: seq<byte>, filename: string)
    requires PointerAt(data, 0).Success? && PointerAt(data, 0).value.value.tag != "ARDF"
    ensures MetadataOf(data, filename) == Failure(WrongType("ARDF", PointerAt(data, 0).value.value.tag, 0))
  {
    RecordLayout.TypedPointerMismatch(data, 0, "ARDF");
  }

  /** The FTOC table is read right after the 16-byte ARDF pointer. */
  lemma HeaderMeaning(data: seq<byte>)
    requires HeaderAt(data).Success?
    ensures TypedPointerAt(data, 0, "ARDF").Success?
    ensures HeaderAt(data) == TocAt(data, 16, "FTOC")
  {
    RecordLayout.TypedPointerAfter(data, 0, "ARDF");
  }

  /** The tables start with the FTOC table of the header. */
  lemma TablesHeader(data: seq<byte>)
    requires TablesAt(data).Success?
    ensures HeaderAt(data).Success? && HeaderAt(data).value.value == TablesAt(data).value.value.0
  {
  }

  /** The TTOC table is read `ftoc.sizeTable + 16` bytes into the file. */
  lemma TablesMeaning(data: seq<byte>, ftoc: Toc, ttoc: Toc, after: nat)
    requires TablesAt(data) == Success(Parsed((ftoc, ttoc), after))
    ensures TocAt(data, ftoc.sizeTable + 16, "TTOC") == Success(Parsed(ttoc, after))
  {
    TablesAfterMeaning(data, HeaderAt(data), ftoc, ttoc, after);
  }

  lemma TablesAfterMeaning(data: seq<byte>, header: Result<Parsed<Toc>, Error>, ftoc: Toc, ttoc: Toc, after: nat)
    requires TablesAfter(data, header) == Success(Parsed((ftoc, ttoc), after))
    ensures header.Success? && header.value.value == ftoc
    ensures TocAt(data, ftoc.sizeTable + 16, "TTOC") == Success(Parsed(ttoc, after))
  {
  }

  /** The main note is the text at the first of the text pointers, of
      which there must be at least one. */
  lemma MainNoteMeaning(data: seq<byte>, tables: (Toc, Toc), pntText: seq<nat>, f: Front, after: nat)
    requires MainNoteAt(data, tables, pntText) == Success(Parsed(f, after))
    ensures (f.ftoc, f.ttoc) == tables && f.numbNotes == |pntText| >= 1
    ensures TextAt(data, pntText[0]) == Success(Parsed(f.main, after))
  {
  }

  /** The front holds the two tables and the main note read from the
      first text pointer of the TTOC table. */
  lemma FrontMeaning(data: seq<byte>, f: Front, after: nat)
    requires FrontAt(data) == Success(Parsed(f, after))
    ensures TablesAt(data).Success? && TablesAt(data).value.value == (f.ftoc, f.ttoc)
    ensures TextPointers(f.ttoc).Success? && f.numbNotes == |TextPointers(f.ttoc).value| >= 1
    ensures TextAt(data, TextPointers(f.ttoc).value[0]) == Success(Parsed(f.main, after))
  {
    var t := TablesAt(data).value;
    MainNoteMeaning(data, t.value, TextPointers(t.value.1).value, f, after);
  }

  /** The image loop runs over the IMAG pointers of the FTOC table from
      where the main note ends; what it gathers is consistent and holds
      one record per pointer, each read from that pointer. */
  lemma ImagePartMeaning(data: seq<byte>)
    requires ImagePartAt(data).Success?
    ensures var a := ImagePartAt(data).value;
      && FrontAt(data).Success? && FrontAt(data).value.value == a.value.front
      && ImagePointers(a.value.front.ftoc) == Success(a.value.pntImag)
      && ImagesFrom(data, FrontAt(data).value.after, a.value.pntImag, 0, NoImage) ==
           Success(Parsed(a.value.images, a.after))
      && Consistent(a.value.images) && |a.value.images.images| == |a.value.pntImag|
      && (forall k :: 0 <= k < |a.value.pntImag| ==> ReadAt(data, a.value.pntImag[k], a.value.images.images[k]))
  {
    var f := FrontAt(data).value;
    ImagesMeaning(data, f.after, ImagePointers(f.value.ftoc).value, 0, NoImage);
  }

  /** The volume loop runs over the VOLM pointers of the FTOC table and
      holds one record per pointer, each read from that pointer; with at
      least one volume the trim uses the last volume's zero-pointer lines,
      and with none there is nothing to trim by. */
  lemma VolumePartMeaning(data: seq<byte>, pos: nat, ftoc: Toc, b: VolumePart, after: nat)
    requires VolumePartAt(data, pos, ftoc) == Success(Parsed(b, after))
    ensures VolumePointers(ftoc) == Success(b.pntVolm)
    ensures VolumesFrom(data, pos, b.pntVolm, 0, Volumes([], None)) == Success(Parsed(b.volumes, after))
    ensures |b.volumes.volumes| == |b.pntVolm|
    ensures forall k :: 0 <= k < |b.pntVolm| ==> VolumeRead(data, b.pntVolm[k], b.volumes.volumes[k])
    ensures b.pntVolm == [] ==> b.volumes.gap == None
    ensures b.pntVolm != [] ==> b.volumes.gap == Some(GapOf(b.volumes.volumes[|b.pntVolm| - 1]))
  {
    VolumesMeaning(data, pos, b.pntVolm, 0, Volumes([], None));
  }

  /** The file without any force volume: `idx_zero` is never bound, so a
      file whose images and note are read fails there. */
  lemma NoVolumes(data: seq<byte>, filename: string)
    requires ImagePartAt(data).Success?
    requires VolumePointers(ImagePartAt(data).value.value.front.ftoc) == Success([])
    ensures MetadataOf(data, filename) == Failure(Unbound("idx_zero"))
  {
    var a := ImagePartAt(data).value;
    ImagePartMeaning(data);
    NoteTextMeaning(a.value.front.main, a.value.images.thumb, a.value.images.quick);
    var v := VolumePartAt(data, a.after, a.value.front.ftoc);
    if v.Success? {
      VolumePartMeaning(data, a.after, a.value.front.ftoc, v.value.value, v.value.after);
    }
  }

  /** What the metadata holds, stated against the two loops: the fixed
      fields, the tables, one title and one image record per IMAG pointer,
      the notes of the main, thumb and quick texts in that order, one
      channel list and one volume record per VOLM pointer, and the image
      array trimmed by the last volume's zero-pointer lines. */
  lemma MetadataMeaning(data: seq<byte>, filename: string)
    requires MetadataOf(data, filename).Success?
    ensures var m := MetadataOf(data, filename).value;
      && ImagePartAt(data).Success?
      && var a := ImagePartAt(data).value;
      && VolumePartAt(data, a.after, a.value.front.ftoc).Success?
      && var b := VolumePartAt(data, a.after, a.value.front.ftoc).value.value;
      && var f, imgs, s := a.value.front, a.value.images, m.structure;
      && m.fileName == PyOps.SplitExtRoot(PyOps.Basename(filename))
      && m.fileType == "ARDF" && m.endNote == map["IsImage" := "1"]
      && s.ftoc == f.ftoc && s.ttoc == f.ttoc && s.numbNotes == f.numbNotes
      && s.numbImag == |a.value.pntImag| && s.images == imgs.images && m.imageList == imgs.titles
      && m.notes == NotesOf(f.main + imgs.thumb.GetOr("") + (if imgs.thumb.Some? then imgs.quick.GetOr("") else ""))
      && s.numbVolm == |b.pntVolm| && s.volumes == b.volumes.volumes
      && m.channelList == ChannelList(s.volumes)
      && b.volumes.gap.Some? && m.y == Trimmed(imgs.y, b.volumes.gap).value
  {
    var a := ImagePartAt(data).value;
    NoteTextMeaning(a.value.front.main, a.value.images.thumb, a.value.images.quick);
  }

  /** Together with the loop lemmas: one title per image, each image read
      from its own pointer, at least one volume, each volume read from its
      own pointer, and the trim by the last volume's zero-pointer lines of
      a well-shaped image array. */
  lemma MetadataRecords(data: seq<byte>, filename: string)
    requires MetadataOf(data, filename).Success?
    ensures var m := MetadataOf(data, filename).value;
      var s := m.structure;
      && ImagePointers(s.ftoc).Success? && VolumePointers(s.ftoc).Success?
      && var pntImag, pntVolm := ImagePointers(s.ftoc).value, VolumePointers(s.ftoc).value;
      && s.numbImag == |pntImag| == |s.images| == |m.imageList|
      && (forall k :: 0 <= k < |pntImag| ==> m.imageList[k] == s.images[k].idef.title)
      && (forall k :: 0 <= k < |pntImag| ==> ReadAt(data, pntImag[k], s.images[k]))
      && s.numbVolm == |pntVolm| == |s.volumes| == |m.channelList| > 0
      && (forall k :: 0 <= k < |pntVolm| ==> m.channelList[k] == s.volumes[k].vchn)
      && (forall k :: 0 <= k < |pntVolm| ==> VolumeRead(data, pntVolm[k], s.volumes[k]))
  {
    MetadataMeaning(data, filename);
    ImagePartMeaning(data);
    var a := ImagePartAt(data).value;
    var v := VolumePartAt(data, a.after, a.value.front.ftoc);
    if v.Success? {
      VolumePartMeaning(data, a.after, a.value.front.ftoc, v.value.value, v.value.after);
    }
  }
}
