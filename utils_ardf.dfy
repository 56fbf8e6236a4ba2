/** The byte-level record readers of the ARDF container. Every reader works
    on the shared file cursor: it positions it (`address == -1` means "where
    it stands"), decodes one record and leaves the cursor after it. Each
    method is proved against a function of the file's bytes and the start
    position (`...At`), and the lemmas state the record layouts. */
module UtilsArdf {
  import opened Wrappers
  import opened Bytes
  import opened Errors
  import opened Stream
  import PyOps

  /** The 16-byte header every record starts with. */
  datatype Pointer = Pointer(crc: nat, size: nat, tag: string, misc: nat)

  // ---------------------------------------------------------------------
  // Pointer header and tag check
  // ---------------------------------------------------------------------

  /** `local_read_ardf_pointer` at byte offset `p`: three little-endian u32
      fields around a 4-character ASCII tag. */
  function PointerAt(data: seq<byte>, p: nat): Result<Parsed<Pointer>, Error> {
    var crc :- UnpackAt(data, p, 4);
    var size :- UnpackAt(data, crc.after, 4);
    var tag :- AsciiAt(data, size.after, 4);
    var misc :- UnpackAt(data, tag.after, 4);
    Success(Parsed(Pointer(crc.value, size.value, tag.value, misc.value), misc.after))
  }

  function PointerFrom(data: seq<byte>, pos: nat, address: int): Result<Parsed<Pointer>, Error> {
    var p :- StartAt(pos, address);
    PointerAt(data, p)
  }

  method ReadArdfPointer(fid: Cursor, address: int) returns (r: Result<Pointer, Error>)
    modifies fid
    ensures Agrees(r, PointerFrom(fid.data, old(fid.pos), address), fid.pos)
  {
    var _ :- fid.Start(address);
    var crc :- fid.ReadUnpack(4);
    var size :- fid.ReadUnpack(4);
    var tag :- fid.ReadAscii(4);
    var misc :- fid.ReadUnpack(4);
    return Success(Pointer(crc, size, tag, misc));
  }

  /** `local_check_type`: `tell` is the cursor position after the pointer,
      so the reported location is the start of that pointer. */
  function CheckType(found: string, expected: string, tell: int): Outcome<Error> {
    Need(found == expected, WrongType(expected, found, tell - 16))
  }

  /** A pointer at `p` whose tag must be `expected`. */
  function TypedPointerAt(data: seq<byte>, p: nat, expected: string): Result<Parsed<Pointer>, Error> {
    var hdr :- PointerAt(data, p);
    :- CheckType(hdr.value.tag, expected, hdr.after);
    Success(hdr)
  }

  // ---------------------------------------------------------------------
  // VSET, VNAM, VDAT, XDAT
  // ---------------------------------------------------------------------

  /** Per-point bookkeeping: force, line and point numbers and the offsets
      of the neighbouring points. */
  datatype Vset = Vset(force: nat, line: nat, point: nat, prev: nat, next: nat)

  /** `local_read_vset` at `p`. The fields use `int.from_bytes`, which does
      not fail on a short read. */
  function VsetAt(data: seq<byte>, p: nat): Result<Parsed<Vset>, Error> {
    var hdr :- TypedPointerAt(data, p, "VSET");
    var force := FromBytesAt(data, hdr.after, 4);
    var line := FromBytesAt(data, force.after, 4);
    var point := FromBytesAt(data, line.after, 4);
    var dum := BytesAt(data, point.after, 4);
    var prev := FromBytesAt(data, dum.after, 8);
    var next := FromBytesAt(data, prev.after, 8);
    Success(Parsed(Vset(force.value, line.value, point.value, prev.value, next.value), next.after))
  }

  function VsetFrom(data: seq<byte>, pos: nat, address: int): Result<Parsed<Vset>, Error> {
    var p :- StartAt(pos, address);
    VsetAt(data, p)
  }

  method ReadVset(fid: Cursor, address: int) returns (r: Result<Vset, Error>)
    modifies fid
    ensures Agrees(r, VsetFrom(fid.data, old(fid.pos), address), fid.pos)
  {
    var _ :- fid.Start(address);
    var hdr :- ReadArdfPointer(fid, -1);
    :- CheckType(hdr.tag, "VSET", fid.pos);
    var force := fid.ReadFromBytes(4);
    var line := fid.ReadFromBytes(4);
    var point := fid.ReadFromBytes(4);
    var _ := fid.Read(4);
    var prev := fid.ReadFromBytes(8);
    var next := fid.ReadFromBytes(8);
    return Success(Vset(force, line, point, prev, next));
  }

  /** The point name record. The name is kept as its bytes: the UTF-8
      decoding of the original is not modelled. */
  datatype Vnam = Vnam(force: nat, line: nat, point: nat, sizeText: nat, name: seq<byte>)

  /** `local_read_vnam` at `p`: after the name it skips what is left of the
      record's declared size (a remainder of -1 reads to the end, and one
      below -1 raises). */
  function VnamAt(data: seq<byte>, p: nat): Result<Parsed<Vnam>, Error> {
    var hdr :- TypedPointerAt(data, p, "VNAM");
    var force := FromBytesAt(data, hdr.after, 4);
    var line := FromBytesAt(data, force.after, 4);
    var point := FromBytesAt(data, line.after, 4);
    var sizeText := FromBytesAt(data, point.after, 4);
    var name := BytesAt(data, sizeText.after, sizeText.value);
    var rest :- ReadBytesAt(data, name.after, hdr.value.size - 16 - sizeText.value - 16);
    Success(Parsed(Vnam(force.value, line.value, point.value, sizeText.value, name.value), rest.after))
  }

  function VnamFrom(data: seq<byte>, pos: nat, address: int): Result<Parsed<Vnam>, Error> {
    var p :- StartAt(pos, address);
    VnamAt(data, p)
  }

  method ReadVnam(fid: Cursor, address: int) returns (r: Result<Vnam, Error>)
    modifies fid
    ensures Agrees(r, VnamFrom(fid.data, old(fid.pos), address), fid.pos)
  {
    var _ :- fid.Start(address);
    assert VnamFrom(fid.data, old(fid.pos), address) == VnamAt(fid.data, fid.pos);
    var hdr :- ReadArdfPointer(fid, -1);
    :- CheckType(hdr.tag, "VNAM", fid.pos);
    var force := fid.ReadFromBytes(4);
    var line := fid.ReadFromBytes(4);
    var point := fid.ReadFromBytes(4);
    var sizeText := fid.ReadFromBytes(4);
    var name := fid.Read(sizeText);
    var remainingSize := hdr.size - 16 - sizeText - 16;
    var _ :- fid.ReadBytes(remainingSize);
    return Success(Vnam(force, line, point, sizeText, name));
  }

  /** One channel's samples at one point, with the three segment boundaries. */
  datatype Vdat = Vdat(force: nat, line: nat, point: nat, sizeData: nat, forceType: nat,
                       pnt0: nat, pnt1: nat, pnt2: nat, data: seq<Word>)

  /** `local_read_vdat` at `p`: ten u32 fields (two of them unused), then
      `sizeData` samples. `np.frombuffer` refuses a buffer whose length is
      not a multiple of four. */
  function VdatAt(data: seq<byte>, p: nat): Result<Parsed<Vdat>, Error> {
    var hdr :- TypedPointerAt(data, p, "VDAT");
    var force := FromBytesAt(data, hdr.after, 4);
    var line := FromBytesAt(data, force.after, 4);
    var point := FromBytesAt(data, line.after, 4);
    var sizeData := FromBytesAt(data, point.after, 4);
    var forceType := FromBytesAt(data, sizeData.after, 4);
    var pnt0 := FromBytesAt(data, forceType.after, 4);
    var pnt1 := FromBytesAt(data, pnt0.after, 4);
    var pnt2 := FromBytesAt(data, pnt1.after, 4);
    var dum0 := FromBytesAt(data, pnt2.after, 4);
    var dum1 := FromBytesAt(data, dum0.after, 4);
    var raw := BytesAt(data, dum1.after, 4 * sizeData.value);
    :- Need(|raw.value| % 4 == 0, BadShape);
    Success(Parsed(Vdat(force.value, line.value, point.value, sizeData.value, forceType.value,
                        pnt0.value, pnt1.value, pnt2.value, Words(raw.value)), raw.after))
  }

  function VdatFrom(data: seq<byte>, pos: nat, address: int): Result<Parsed<Vdat>, Error> {
    var p :- StartAt(pos, address);
    VdatAt(data, p)
  }

  method ReadVdat(fid: Cursor, address: int) returns (r: Result<Vdat, Error>)
    modifies fid
    ensures Agrees(r, VdatFrom(fid.data, old(fid.pos), address), fid.pos)
  {
    var _ :- fid.Start(address);
    var hdr :- ReadArdfPointer(fid, -1);
    :- CheckType(hdr.tag, "VDAT", fid.pos);
    var force := fid.ReadFromBytes(4);
    var line := fid.ReadFromBytes(4);
    var point := fid.ReadFromBytes(4);
    var sizeData := fid.ReadFromBytes(4);
    var forceType := fid.ReadFromBytes(4);
    var pnt0 := fid.ReadFromBytes(4);
    var pnt1 := fid.ReadFromBytes(4);
    var pnt2 := fid.ReadFromBytes(4);
    var _ := fid.ReadFromBytes(4);
    var _ := fid.ReadFromBytes(4);
    var raw := fid.Read(4 * sizeData);
    if |raw| % 4 != 0 {
      return Failure(BadShape);
    }
    return Success(Vdat(force, line, point, sizeData, forceType, pnt0, pnt1, pnt2, Words(raw)));
  }

  /** `local_read_xdat` at `p`: an XDAT record is skipped whole; a VSET (the
      next point already) is left unread, with the cursor back at its start. */
  function XdatAt(data: seq<byte>, p: nat): Result<Parsed<()>, Error> {
    var hdr :- PointerAt(data, p);
    var tag := hdr.value.tag;
    if tag == "XDAT" then Success(Parsed((), hdr.after + hdr.value.size - 16))
    else if tag == "VSET" then Success(Parsed((), hdr.after - 16))
    else Failure(WrongType("XDAT or VSET", tag, hdr.after - 16))
  }

  function XdatFrom(data: seq<byte>, pos: nat, address: int): Result<Parsed<()>, Error> {
    var p :- StartAt(pos, address);
    XdatAt(data, p)
  }

  method ReadXdat(fid: Cursor, address: int) returns (r: Result<(), Error>)
    modifies fid
    ensures Agrees(r, XdatFrom(fid.data, old(fid.pos), address), fid.pos)
  {
    var _ :- fid.Start(address);
    var hdr :- ReadArdfPointer(fid, -1);
    if hdr.tag != "XDAT" && hdr.tag != "VSET" {
      return Failure(WrongType("XDAT or VSET", hdr.tag, fid.pos - 16));
    }
    if hdr.tag == "XDAT" {
      var stepDist := hdr.size - 16;
      :- fid.SeekBy(stepDist);
    } else {
      :- fid.SeekBy(-16);
    }
    return Success(());
  }

  // ---------------------------------------------------------------------
  // IDEF / VDEF and TEXT
  // ---------------------------------------------------------------------

  /** An image or volume definition: its size in points and lines and its title. */
  datatype Def = Def(points: nat, lines: nat, title: string)

  /** The bytes skipped between the counts and the title of a DEF record. */
  function DefSkip(tag: string): Result<nat, Error> {
    if tag == "IDEF" then Success(96)
    else if tag == "VDEF" then Success(144)
    else Failure(UnknownDef(tag))
  }

  /** `local_read_def` at `p`. */
  function DefAt(data: seq<byte>, p: nat, expected: string): Result<Parsed<Def>, Error> {
    var hdr :- TypedPointerAt(data, p, expected);
    var points :- UnpackAt(data, hdr.after, 4);
    var lines :- UnpackAt(data, points.after, 4);
    var skip :- DefSkip(hdr.value.tag);
    DefTitleAt(data, lines.after, hdr.value.size, skip, points.value, lines.value)
  }

  /** The rest of a DEF record of `size` bytes once its counts are read:
      `skip` bytes, the 32-byte title and whatever the record holds past it. */
  function DefTitleAt(data: seq<byte>, p: nat, size: int, skip: nat, points: nat, lines: nat)
    : Result<Parsed<Def>, Error>
  {
    var dummy := BytesAt(data, p, skip);
    var title :- AsciiAt(data, dummy.after, 32);
    var rest :- ReadBytesAt(data, title.after, size - 8 - skip - 16 - 32);
    Success(Parsed(Def(points, lines, PyOps.RStrip(title.value, 0 as char)), rest.after))
  }

  function DefFrom(data: seq<byte>, pos: nat, address: int, expected: string): Result<Parsed<Def>, Error> {
    var p :- StartAt(pos, address);
    DefAt(data, p, expected)
  }

  /** A reader given an absolute address starts there, wherever the cursor stood. */
  lemma DefFromAt(data: seq<byte>, pos: nat, address: nat, expected: string)
    ensures DefFrom(data, pos, address, expected) == DefAt(data, address, expected)
  {
  }

  method ReadDef(fid: Cursor, address: int, expected: string) returns (r: Result<Def, Error>)
    modifies fid
    ensures Agrees(r, DefFrom(fid.data, old(fid.pos), address, expected), fid.pos)
  {
    var _ :- fid.Start(address);
    var hdr :- ReadArdfPointer(fid, -1);
    :- CheckType(hdr.tag, expected, fid.pos);
    var points :- fid.ReadUnpack(4);
    var lines :- fid.ReadUnpack(4);
    var skip: nat;
    if hdr.tag == "IDEF" {
      skip := 96;
    } else if hdr.tag == "VDEF" {
      skip := 144;
    } else {
      return Failure(UnknownDef(hdr.tag));
    }
    r := ReadDefTitle(fid, hdr.size, skip, points, lines);
  }

  method ReadDefTitle(fid: Cursor, size: int, skip: nat, points: nat, lines: nat) returns (r: Result<Def, Error>)
    modifies fid
    ensures Agrees(r, DefTitleAt(fid.data, old(fid.pos), size, skip, points, lines), fid.pos)
  {
    var _ := fid.Read(skip);
    var title :- fid.ReadAscii(32);
    var remainingSize := size - 8 - skip - 16 - 32;
    var _ :- fid.ReadBytes(remainingSize);
    return Success(Def(points, lines, PyOps.RStrip(title, 0 as char)));
  }

  /** `local_read_text` at `loc` (always an absolute seek): a TEXT pointer, a
      reserved u32, the length, and that many bytes decoded as Latin-1. */
  function TextAt(data: seq<byte>, loc: int): Result<Parsed<string>, Error> {
    var absolute := Need(loc >= 0, NegativeSeek);
    :- absolute;
    var hdr :- TypedPointerAt(data, loc, "TEXT");
    var misc :- UnpackAt(data, hdr.after, 4);
    var size :- UnpackAt(data, misc.after, 4);
    var txt := Latin1At(data, size.after, size.value);
    Success(txt)
  }

  method ReadText(fid: Cursor, loc: int) returns (r: Result<string, Error>)
    modifies fid
    ensures Agrees(r, TextAt(fid.data, loc), fid.pos)
  {
    var sought := fid.Seek(loc);
    if sought.Fail? {
      return Failure(sought.error);
    }
    var hdr :- ReadArdfPointer(fid, -1);
    :- CheckType(hdr.tag, "TEXT", fid.pos);
    var _ :- fid.ReadUnpack(4);
    var sizeNote :- fid.ReadUnpack(4);
    var txt := fid.ReadLatin1(sizeNote);
    return Success(txt);
  }

  // ---------------------------------------------------------------------
  // Tables of contents
  // ---------------------------------------------------------------------

  /** How a table's entries are laid out, chosen by its declared entry size
      alone: 24 bytes hold one pointer, 32 an index and a pointer, 40 a line's
      counters and pointer, anything else `(sizeEntry - 16) // 4` samples. */
  datatype Layout = PointerTable | TextTable | LineTable | DataTable(words: int)

  /** Python's `//` by 4 and Dafny's `/` agree: both round towards minus infinity
      for a positive divisor. */
  function LayoutOf(sizeEntry: nat): Layout {
    if sizeEntry == 24 then PointerTable
    else if sizeEntry == 32 then TextTable
    else if sizeEntry == 40 then LineTable
    else DataTable((sizeEntry - 16) / 4)
  }

  /** A decoded table. Only the lists of its layout exist in the original
      dictionary; the others stay empty here and the accessors below fail
      with the original's KeyError when asked for them. */
  datatype Toc = Toc(sizeTable: nat, numbEntry: nat, sizeEntry: nat,
                     pntImag: seq<nat>, pntVolm: seq<nat>, pntNext: seq<nat>,
                     pntNset: seq<nat>, pntThmb: seq<nat>,
                     idxText: seq<nat>, pntText: seq<nat>,
                     pntCounter: seq<nat>, linCounter: seq<nat>, linPointer: seq<nat>,
                     data: seq<Word>)

  function EmptyToc(sizeTable: nat, numbEntry: nat, sizeEntry: nat): Toc {
    Toc(sizeTable, numbEntry, sizeEntry, [], [], [], [], [], [], [], [], [], [], [])
  }

  /** `F[...]['pntImag']` and friends: present only in a 24-byte-entry table. */
  function ImagePointers(t: Toc): Result<seq<nat>, Error> {
    if LayoutOf(t.sizeEntry) == PointerTable then Success(t.pntImag) else Failure(MissingKey("pntImag"))
  }

  function VolumePointers(t: Toc): Result<seq<nat>, Error> {
    if LayoutOf(t.sizeEntry) == PointerTable then Success(t.pntVolm) else Failure(MissingKey("pntVolm"))
  }

  /** `['pntText']`: present only in a 32-byte-entry table. */
  function TextPointers(t: Toc): Result<seq<nat>, Error> {
    if LayoutOf(t.sizeEntry) == TextTable then Success(t.pntText) else Failure(MissingKey("pntText"))
  }

  /** `['linPointer']`: present only in a 40-byte-entry table. */
  function LinePointers(t: Toc): Result<seq<nat>, Error> {
    if LayoutOf(t.sizeEntry) == LineTable then Success(t.linPointer) else Failure(MissingKey("linPointer"))
  }

  /** `['data']`: present only in a table of sample entries. */
  function DataWords(t: Toc): Result<seq<Word>, Error> {
    if LayoutOf(t.sizeEntry).DataTable? then Success(t.data) else Failure(MissingKey("data"))
  }

  /** The fields that follow one entry's 16-byte pointer. */
  datatype Payload =
    | PointerEntry(pointer: nat)
    | TextEntry(index: nat, pointer: nat)
    | LineEntry(pntCount: nat, linCount: nat, linPointer: nat)
    | DataEntry(words: seq<Word>)

  /** The payload fields of one entry, all read with `struct.unpack`. A sample
      entry with a negative word count asks `read` for at most -4 bytes,
      which raises before `struct.unpack` is reached. */
  function PayloadAt(data: seq<byte>, p: nat, layout: Layout): Result<Parsed<Payload>, Error> {
    match layout
    case PointerTable =>
      var x :- UnpackAt(data, p, 8);
      Success(Parsed(PointerEntry(x.value), x.after))
    case TextTable =>
      var i :- UnpackAt(data, p, 8);
      var x :- UnpackAt(data, i.after, 8);
      Success(Parsed(TextEntry(i.value, x.value), x.after))
    case LineTable =>
      var pc :- UnpackAt(data, p, 4);
      var lc :- UnpackAt(data, pc.after, 4);
      var dum :- UnpackAt(data, lc.after, 8);
      var lp :- UnpackAt(data, dum.after, 8);
      Success(Parsed(LineEntry(pc.value, lc.value, lp.value), lp.after))
    case DataTable(n) =>
      var raw :- ReadBytesAt(data, p, 4 * n);
      :- Need(|raw.value| == 4 * n, ShortRead);
      Success(Parsed(DataEntry(Words(raw.value)), raw.after))
  }

  method ReadPayload(fid: Cursor, layout: Layout) returns (r: Result<Payload, Error>)
    modifies fid
    ensures Agrees(r, PayloadAt(fid.data, old(fid.pos), layout), fid.pos)
  {
    match layout
    case PointerTable =>
      var lastPointer :- fid.ReadUnpack(8);
      return Success(PointerEntry(lastPointer));
    case TextTable =>
      var lastIndex :- fid.ReadUnpack(8);
      var lastPointer :- fid.ReadUnpack(8);
      return Success(TextEntry(lastIndex, lastPointer));
    case LineTable =>
      var lastPntCount :- fid.ReadUnpack(4);
      var lastLinCount :- fid.ReadUnpack(4);
      var _ :- fid.ReadUnpack(8);
      var lastLinPoint :- fid.ReadUnpack(8);
      return Success(LineEntry(lastPntCount, lastLinCount, lastLinPoint));
    case DataTable(sizeRead) =>
      var raw :- fid.ReadBytes(4 * sizeRead);
      if |raw| != 4 * sizeRead {
        return Failure(ShortRead);
      }
      return Success(DataEntry(Words(raw)));
  }

  /** The all-zero tag `'\x00\x00\x00\x00'`. */
  const NullTag: string := [0 as char, 0 as char, 0 as char, 0 as char]

  /** What one entry does to the table: extend it, or end it. */
  datatype Step = Continue(toc: Toc) | Stop

  /** The entry tags the walker knows. */
  datatype EntryTag = Imag | Volm | Next | Nset | Thmb | Toff | Idat | Voff | Zero | Unknown

  function TagOf(tag: string): EntryTag {
    if tag == "IMAG" then Imag
    else if tag == "VOLM" then Volm
    else if tag == "NEXT" then Next
    else if tag == "NSET" then Nset
    else if tag == "THMB" then Thmb
    else if tag == "TOFF" then Toff
    else if tag == "IDAT" then Idat
    else if tag == "VOFF" then Voff
    else if tag == NullTag then Zero
    else Unknown
  }

  function AddPointer(t: Toc, kind: EntryTag, e: Payload): Result<Step, Error>
    requires kind in {Imag, Volm, Next, Nset, Thmb}
  {
    if !e.PointerEntry? then
      Failure(MissingKey(match kind
        case Imag => "pntImag" case Volm => "pntVolm" case Next => "pntNext"
        case Nset => "pntNset" case _ => "pntThmb"))
    else
      var x := e.pointer;
      Success(Continue(match kind
        case Imag => t.(pntImag := t.pntImag + [x])
        case Volm => t.(pntVolm := t.pntVolm + [x])
        case Next => t.(pntNext := t.pntNext + [x])
        case Nset => t.(pntNset := t.pntNset + [x])
        case _ => t.(pntThmb := t.pntThmb + [x])))
  }

  function AddText(t: Toc, e: Payload): Result<Step, Error> {
    if e.TextEntry? then
      Success(Continue(t.(idxText := t.idxText + [e.index], pntText := t.pntText + [e.pointer])))
    else Failure(MissingKey("idxText"))
  }

  function AddLine(t: Toc, e: Payload): Result<Step, Error> {
    if e.LineEntry? then
      Success(Continue(t.(pntCounter := t.pntCounter + [e.pntCount],
                          linCounter := t.linCounter + [e.linCount],
                          linPointer := t.linPointer + [e.linPointer])))
    else Failure(MissingKey("pntCounter"))
  }

  function AddData(t: Toc, e: Payload): Result<Step, Error> {
    if e.DataEntry? then Success(Continue(t.(data := t.data + e.words)))
    else Failure(MissingKey("data"))
  }

  /** The dispatch on one entry's tag. The zero tag continues the table only
      when the table's OWN header tag (`headerTag`) is IBOX or VTOC; the
      entry's payload is kept then. A tag whose list the layout lacks is a
      KeyError, any other tag "not recognized". */
  function AddEntry(t: Toc, headerTag: string, tag: string, e: Payload): Result<Step, Error> {
    match TagOf(tag)
    case Imag => AddPointer(t, Imag, e)
    case Volm => AddPointer(t, Volm, e)
    case Next => AddPointer(t, Next, e)
    case Nset => AddPointer(t, Nset, e)
    case Thmb => AddPointer(t, Thmb, e)
    case Toff => AddText(t, e)
    case Idat => AddData(t, e)
    case Voff => AddLine(t, e)
    case Zero =>
      if headerTag == "IBOX" then AddData(t, e)
      else if headerTag == "VTOC" then AddLine(t, e)
      else Success(Stop)
    case Unknown => Failure(NotRecognized(tag))
  }

  /** One entry at `p`: its pointer, its payload and what it does to `acc`. */
  function EntryAt(data: seq<byte>, p: nat, headerTag: string, layout: Layout, acc: Toc)
    : Result<Parsed<Step>, Error>
  {
    var entry :- PointerAt(data, p);
    var payload :- PayloadAt(data, entry.after, layout);
    var step :- AddEntry(acc, headerTag, entry.value.tag, payload.value);
    Success(Parsed(step, payload.after))
  }

  /** The entry loop from position `p`, with at most `remaining` entries left. */
  function EntriesFrom(data: seq<byte>, p: nat, remaining: nat, headerTag: string, layout: Layout, acc: Toc)
    : Result<Parsed<Toc>, Error>
    decreases remaining, 1
  {
    if remaining == 0 then Success(Parsed(acc, p))
    else EntryThen(data, p, remaining - 1, headerTag, layout, acc)
  }

  /** The entry at `p`, then the loop after it with `remaining` entries left. */
  function EntryThen(data: seq<byte>, p: nat, remaining: nat, headerTag: string, layout: Layout, acc: Toc)
    : Result<Parsed<Toc>, Error>
    decreases remaining, 3
  {
    EntriesAfter(data, EntryAt(data, p, headerTag, layout, acc), remaining, headerTag, layout, acc)
  }

  /** The loop after one entry was read: a failure ends it, the zero tag
      ends it with the table as it was, otherwise it goes on. */
  function EntriesAfter(data: seq<byte>, step: Result<Parsed<Step>, Error>, remaining: nat, headerTag: string,
                        layout: Layout, acc: Toc): Result<Parsed<Toc>, Error>
    decreases remaining, 2
  {
    match step
    case Failure(e) => Failure(e)
    case Success(Parsed(Stop, after)) => Success(Parsed(acc, after))
    case Success(Parsed(Continue(t), after)) => EntriesFrom(data, after, remaining, headerTag, layout, t)
  }

  /** One turn of the entry loop. */
  lemma EntriesStep(data: seq<byte>, p: nat, remaining: nat, headerTag: string, layout: Layout, acc: Toc)
    requires remaining > 0
    ensures EntriesFrom(data, p, remaining, headerTag, layout, acc)
         == EntriesAfter(data, EntryAt(data, p, headerTag, layout, acc), remaining - 1, headerTag, layout, acc)
  {
    assert EntriesFrom(data, p, remaining, headerTag, layout, acc) == EntryThen(data, p, remaining - 1, headerTag, layout, acc);
  }

  lemma AfterStep(data: seq<byte>, step: Step, q: nat, remaining: nat, headerTag: string, layout: Layout, acc: Toc)
    ensures EntriesAfter(data, Success(Parsed(step, q)), remaining, headerTag, layout, acc)
         == if step.Stop? then Success(Parsed(acc, q)) else EntriesFrom(data, q, remaining, headerTag, layout, step.toc)
  {
  }

  /** The loop after an entry that was read. */
  lemma EntriesNext(data: seq<byte>, p: nat, remaining: nat, headerTag: string, layout: Layout, acc: Toc,
                    step: Step, q: nat)
    requires remaining > 0 && EntryAt(data, p, headerTag, layout, acc) == Success(Parsed(step, q))
    ensures EntriesFrom(data, p, remaining, headerTag, layout, acc)
         == if step.Stop? then Success(Parsed(acc, q)) else EntriesFrom(data, q, remaining - 1, headerTag, layout, step.toc)
  {
    EntriesStep(data, p, remaining, headerTag, layout, acc);
    AfterStep(data, step, q, remaining - 1, headerTag, layout, acc);
  }

  /** The 32-byte table header: the pointer, whose tag must be `expected`,
      then `sizeTable` (u64), `numbEntry` and `sizeEntry` (u32). */
  datatype TocHeader = TocHeader(tag: string, sizeTable: nat, numbEntry: nat, sizeEntry: nat)

  function TocHeaderAt(data: seq<byte>, p: nat, expected: string): Result<Parsed<TocHeader>, Error> {
    var hdr :- TypedPointerAt(data, p, expected);
    var sizeTable :- UnpackAt(data, hdr.after, 8);
    var numbEntry :- UnpackAt(data, sizeTable.after, 4);
    var sizeEntry :- UnpackAt(data, numbEntry.after, 4);
    Success(Parsed(TocHeader(hdr.value.tag, sizeTable.value, numbEntry.value, sizeEntry.value), sizeEntry.after))
  }

  function TocHeaderFrom(data: seq<byte>, pos: nat, address: int, expected: string): Result<Parsed<TocHeader>, Error> {
    var p :- StartAt(pos, address);
    TocHeaderAt(data, p, expected)
  }

  /** `local_read_toc` at `p`: the header, then its entries. */
  function TocAt(data: seq<byte>, p: nat, expected: string): Result<Parsed<Toc>, Error> {
    var h :- TocHeaderAt(data, p, expected);
    EntriesFrom(data, h.after, h.value.numbEntry, h.value.tag, LayoutOf(h.value.sizeEntry),
                EmptyToc(h.value.sizeTable, h.value.numbEntry, h.value.sizeEntry))
  }

  function TocFrom(data: seq<byte>, pos: nat, address: int, expected: string): Result<Parsed<Toc>, Error> {
    var p :- StartAt(pos, address);
    TocAt(data, p, expected)
  }

  lemma TocFromAt(data: seq<byte>, pos: nat, address: nat, expected: string)
    ensures TocFrom(data, pos, address, expected) == TocAt(data, address, expected)
  {
  }

  method ReadTocHeader(fid: Cursor, address: int, expected: string) returns (r: Result<TocHeader, Error>)
    modifies fid
    ensures Agrees(r, TocHeaderFrom(fid.data, old(fid.pos), address, expected), fid.pos)
  {
    var _ :- fid.Start(address);
    var hdr :- ReadArdfPointer(fid, -1);
    :- CheckType(hdr.tag, expected, fid.pos);
    var sizeTable :- fid.ReadUnpack(8);
    var numbEntry :- fid.ReadUnpack(4);
    var sizeEntry :- fid.ReadUnpack(4);
    return Success(TocHeader(hdr.tag, sizeTable, numbEntry, sizeEntry));
  }

  /** The body of the entry loop: one pointer, its payload, and the
      dispatch on the entry's tag. */
  method ReadEntry(fid: Cursor, lastType: string, layout: Layout, toc: Toc) returns (r: Result<Step, Error>)
    modifies fid
    ensures Agrees(r, EntryAt(fid.data, old(fid.pos), lastType, layout, toc), fid.pos)
  {
    var entry :- ReadArdfPointer(fid, -1);
    var payload :- ReadPayload(fid, layout);
    r := Dispatch(toc, lastType, entry.tag, payload);
  }

  /** The original's if/elif chain on the entry tag. */
  method Dispatch(toc: Toc, lastType: string, typeEntry: string, payload: Payload) returns (r: Result<Step, Error>)
    ensures r == AddEntry(toc, lastType, typeEntry, payload)
  {
    if typeEntry == "IMAG" {
      if !payload.PointerEntry? {
        return Failure(MissingKey("pntImag"));
      }
      return Success(Continue(toc.(pntImag := toc.pntImag + [payload.pointer])));
    } else if typeEntry == "VOLM" {
      if !payload.PointerEntry? {
        return Failure(MissingKey("pntVolm"));
      }
      return Success(Continue(toc.(pntVolm := toc.pntVolm + [payload.pointer])));
    } else if typeEntry == "NEXT" {
      if !payload.PointerEntry? {
        return Failure(MissingKey("pntNext"));
      }
      return Success(Continue(toc.(pntNext := toc.pntNext + [payload.pointer])));
    } else if typeEntry == "NSET" {
      if !payload.PointerEntry? {
        return Failure(MissingKey("pntNset"));
      }
      return Success(Continue(toc.(pntNset := toc.pntNset + [payload.pointer])));
    } else if typeEntry == "THMB" {
      if !payload.PointerEntry? {
        return Failure(MissingKey("pntThmb"));
      }
      return Success(Continue(toc.(pntThmb := toc.pntThmb + [payload.pointer])));
    } else if typeEntry == "TOFF" {
      if !payload.TextEntry? {
        return Failure(MissingKey("idxText"));
      }
      return Success(Continue(toc.(idxText := toc.idxText + [payload.index],
                                   pntText := toc.pntText + [payload.pointer])));
    } else if typeEntry == "IDAT" || (typeEntry == NullTag && lastType == "IBOX") {
      if !payload.DataEntry? {
        return Failure(MissingKey("data"));
      }
      return Success(Continue(toc.(data := toc.data + payload.words)));
    } else if typeEntry == "VOFF" || (typeEntry == NullTag && lastType == "VTOC") {
      if !payload.LineEntry? {
        return Failure(MissingKey("pntCounter"));
      }
      return Success(Continue(toc.(pntCounter := toc.pntCounter + [payload.pntCount],
                                   linCounter := toc.linCounter + [payload.linCount],
                                   linPointer := toc.linPointer + [payload.linPointer])));
    } else if typeEntry == NullTag {
      return Success(Stop);
    } else {
      return Failure(NotRecognized(typeEntry));
    }
  }

  method ReadToc(fid: Cursor, address: int, expected: string) returns (r: Result<Toc, Error>)
    modifies fid
    ensures Agrees(r, TocFrom(fid.data, old(fid.pos), address, expected), fid.pos)
  {
    var h :- ReadTocHeader(fid, address, expected);
    var lastType := h.tag;
    var layout := LayoutOf(h.sizeEntry);
    r := ReadEntries(fid, h.numbEntry, lastType, layout, EmptyToc(h.sizeTable, h.numbEntry, h.sizeEntry));
  }

  /** One turn of the entry loop, stated against the rest of the loop. */
  method ReadNext(fid: Cursor, ghost remaining: nat, lastType: string, layout: Layout, toc: Toc)
    returns (r: Result<Step, Error>)
    requires remaining > 0
    modifies fid
    ensures r.Failure? ==> EntriesFrom(fid.data, old(fid.pos), remaining, lastType, layout, toc) == Failure(r.error)
    ensures r.Success? ==>
      EntriesFrom(fid.data, old(fid.pos), remaining, lastType, layout, toc) ==
        if r.value.Stop? then Success(Parsed(toc, fid.pos))
        else EntriesFrom(fid.data, fid.pos, remaining - 1, lastType, layout, r.value.toc)
  {
    ghost var before := fid.pos;
    EntriesStep(fid.data, before, remaining, lastType, layout, toc);
    r := ReadEntry(fid, lastType, layout, toc);
    if r.Success? {
      assert EntryAt(fid.data, before, lastType, layout, toc) == Success(Parsed(r.value, fid.pos));
      EntriesNext(fid.data, before, remaining, lastType, layout, toc, r.value, fid.pos);
    }
  }

  /** The `while not done` loop over at most `numbEntry` entries. */
  method ReadEntries(fid: Cursor, numbEntry: nat, lastType: string, layout: Layout, toc0: Toc)
    returns (r: Result<Toc, Error>)
    modifies fid
    ensures Agrees(r, EntriesFrom(fid.data, old(fid.pos), numbEntry, lastType, layout, toc0), fid.pos)
  {
    ghost var spec := EntriesFrom(fid.data, fid.pos, numbEntry, lastType, layout, toc0);
    var toc := toc0;
    var done := false;
    var numbRead := 1;
    ghost var left := numbEntry;
    while !done && numbRead <= numbEntry
      invariant 1 <= numbRead <= numbEntry + 1 && left == numbEntry + 1 - numbRead
      invariant done ==> spec == Success(Parsed(toc, fid.pos))
      invariant !done ==> spec == EntriesFrom(fid.data, fid.pos, left, lastType, layout, toc)
      decreases left
    {
      var step := ReadNext(fid, left, lastType, layout, toc);
      if step.Failure? {
        assert spec == Failure(step.error);
        return Failure(step.error);
      }
      if step.value.Stop? {
        done := true;
      } else {
        toc := step.value.toc;
      }
      numbRead := numbRead + 1;
      left := left - 1;
    }
    return Success(toc);
  }
}
