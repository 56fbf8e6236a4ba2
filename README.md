# ARDF reader: a verified model

This project models the reader for the Asylum Research **ARDF** container in
PyFMReader. An ARDF file is a chain of records, each opened by a 16-byte
pointer: a CRC, a size, a four-character tag and a spare word. From them the
reader builds:

- the metadata dictionary of a force map (`read_ardf_metadata`): its tables of
  contents, image stack, notes, channel lists and per-volume line pointers;
- the force curves of one scan line (`extract_ardf_data`);
- the header that enumerates the map's curves (`parseARDFheader`);
- one force curve cut into approach and retract segments (`loadARDFcurve`).

Around that core the model also covers:

- the suffix dispatch of `loadfile`;
- the curve-order permutation `find_piezo_coord` that PyFMGUI's export uses.

The file is a byte sequence, `seq<byte>`, and the open file object is the
class `Stream.Cursor`, whose `pos` field every reader moves. Each reader is a
method on the cursor. It is proved against a specification function of the
bytes and the start position: `Agrees(r, XAt(data, pos), fid.pos)` says that
the method and the function fail with the same error, or return the same value
with the cursor where the function says. Lemmas then state what the functions
mean. IEEE-754 samples are opaque 32-bit `Word`s. The reader only copies,
reshapes, pads, reverses and negates them, and negation flips the sign bit.

Modules, one per source file of the core, plus shared helpers:

| module | models |
|---|---|
| `Bytes`, `Stream`, `PyOps`, `Errors`, `Wrappers` | little-endian decoding and text decodings, binary-file semantics (short reads, seek past the end, `read(-1)` to the end and a `ValueError` for a size below -1), Python slicing, indexing and `str` methods, the exceptions as an `Error` datatype |
| `UtilsArdf`, `RecordLayout` | `utils_ardf.py`: pointer, VSET, VNAM, VDAT, XDAT, DEF, TEXT and TOC readers, and their byte layouts |
| `Notes` | `parse_notes` |
| `ArdfImages`, `ArdfVolumes`, `ReadArdf` | `read_ardf.py`: the image loop, the volume loop, and the assembly with trimming |
| `GetArdfData` | `get_ardf_data.py` |
| `ParseArdfHeader` | `parseARDFheader.py` |
| `LoadArdfCurve` | `loadARDFcurve.py`, with the `ForceCurve` and `Segment` objects as classes |
| `PyFmReader` | the dispatch in `pyfmreader.py` |
| `Export` | `find_piezo_coord` in `export.py` |

Points where the code behaves otherwise than a reader of the format might
expect, modelled as the code does:

- A VSET record is 48 bytes, not 56. The reader reads the pointer (16), three
  u32 fields, four skipped bytes and two u64 offsets.
- The zero-tag rule in `local_read_toc` tests the tag of the table's own
  header, not the previous entry's tag.
- Partial-scan trimming uses the zero-pointer lines of the last volume only,
  and deletes along axis 1 (points) of the image stack.
- In `extract_ardf_data`, a first point whose plane has no rows is replaced
  by the next point's plane instead of being stacked. `GetArdfData.LinePlanes`
  states the resulting shape: the planes of the leading row-less points are
  dropped.
- In `loadfile`, a PS-NEX file of another instrument and a suffix that no
  branch accepts both return `None`, because the exception is built but never
  raised.
- The metadata keys that `read_ardf_metadata` returns do not coincide with
  the keys `parseARDFheader` set before them, so `header.update` overrides
  nothing. The header is modelled as its fields plus the metadata kept whole.
- `find_piezo_coord` of a JPK force map with `ny == 0` raises: the list of
  reversed rows is empty, `np.asarray` makes it one-dimensional, and
  `np.fliplr` refuses it. Any other extension keeps the `(0, nx)` shape.
  `Export.FindPiezoCoord` fails on exactly that input.

## Model

| member | source | states |
|---|---|---|
| `Bytes.DecodeEncodeLE` | PyFMReader_DyNaMo/src/pyfmreader/ardf/utils_ardf.py:36-39 | decoding the little-endian encoding of a number below 256^n gives the number back |
| `Bytes.EncodeDecodeLE` | PyFMReader_DyNaMo/src/pyfmreader/ardf/utils_ardf.py:36-39 | encoding a decoded byte string of length n in n bytes gives the bytes back |
| `Bytes.WordsEncodeWords` | PyFMReader_DyNaMo/src/pyfmreader/ardf/utils_ardf.py:362 | decoding encoded sample words gives them back |
| `Bytes.Latin1` | PyFMReader_DyNaMo/src/pyfmreader/ardf/utils_ardf.py:307 | a string of code points below 256 has an encoding that `Chars` decodes back to it |
| `UtilsArdf.ReadArdfPointer` | PyFMReader_DyNaMo/src/pyfmreader/ardf/utils_ardf.py:18-41 | the pointer read agrees with `PointerFrom`: same value or error, cursor where it says |
| `RecordLayout.PointerLayout` | PyFMReader_DyNaMo/src/pyfmreader/ardf/utils_ardf.py:32-41 | a pointer read succeeds exactly when 16 bytes remain and the tag is ASCII; it consumes exactly 16 bytes, u32 fields at offsets 0, 4 and 12 and the tag at 8 |
| `RecordLayout.PointerFromStart` | PyFMReader_DyNaMo/src/pyfmreader/ardf/utils_ardf.py:32-33 | `address == -1` reads where the cursor stands; any other address is an absolute position, and a negative one fails |
| `RecordLayout.PointerRoundTrip` | PyFMReader_DyNaMo/src/pyfmreader/ardf/utils_ardf.py:18-41 | reading an encoded pointer anywhere in the file gives it back and leaves the cursor 16 bytes later |
| `RecordLayout.CheckTypeMeaning` | PyFMReader_DyNaMo/src/pyfmreader/ardf/utils_ardf.py:50-53 | the tag check fails exactly when found differs from expected, and reports the location `tell - 16` |
| `RecordLayout.TypedPointerMismatch` | PyFMReader_DyNaMo/src/pyfmreader/ardf/utils_ardf.py:50-53 | a pointer with the wrong tag fails with the error naming that pointer's own start |
| `UtilsArdf.ReadVset` | PyFMReader_DyNaMo/src/pyfmreader/ardf/utils_ardf.py:211-229 | the VSET read agrees with its specification function on value, error and cursor |
| `RecordLayout.VsetLayout` | PyFMReader_DyNaMo/src/pyfmreader/ardf/utils_ardf.py:211-229 | a VSET record is read from 48 bytes: pointer, three u32 ids, 4 skipped bytes and two u64 neighbour offsets |
| `UtilsArdf.ReadVnam` | PyFMReader_DyNaMo/src/pyfmreader/ardf/utils_ardf.py:180-203 | the VNAM read agrees with its specification function on value, error and cursor, including the `ValueError` of a remaining size below -1 |
| `RecordLayout.VnamShortSize` | PyFMReader_DyNaMo/src/pyfmreader/ardf/utils_ardf.py:198-201 | a VNAM record whose size is more than one byte short of its 32-byte fixed part and name makes `read` raise `ValueError` |
| `RecordLayout.VnamLayout` | PyFMReader_DyNaMo/src/pyfmreader/ardf/utils_ardf.py:180-203 | a VNAM record whose declared size covers its name leaves the cursor exactly `lastSize` bytes after its start; the name is the `sizeText` bytes after four u32 fields |
| `UtilsArdf.ReadVdat` | PyFMReader_DyNaMo/src/pyfmreader/ardf/utils_ardf.py:147-174 | the VDAT read agrees with its specification function on value, error and cursor |
| `RecordLayout.VdatLayout` | PyFMReader_DyNaMo/src/pyfmreader/ardf/utils_ardf.py:147-174 | a VDAT record whose samples lie in the file is the u32 fields force, line, point, sizeData, forceType, pnt0, pnt1, pnt2 at offsets 16 to 44, then after two unused words exactly `sizeData` little-endian words from offset 56; the cursor ends after the last sample |
| `UtilsArdf.ReadXdat` | PyFMReader_DyNaMo/src/pyfmreader/ardf/utils_ardf.py:126-140 | the XDAT step agrees with its specification function on error and cursor |
| `RecordLayout.XdatLayout` | PyFMReader_DyNaMo/src/pyfmreader/ardf/utils_ardf.py:126-140 | an XDAT record is skipped to its end, a VSET leaves the cursor back at its own start, any other tag fails |
| `UtilsArdf.ReadDef` | PyFMReader_DyNaMo/src/pyfmreader/ardf/utils_ardf.py:236-286 | the DEF read agrees with its specification function on value, error and cursor, including the `ValueError` of a skip size below -1 |
| `UtilsArdf.DefFromAt` | PyFMReader_DyNaMo/src/pyfmreader/ardf/utils_ardf.py:248-249 | a DEF read at an absolute address does not depend on where the cursor stood |
| `RecordLayout.DefShortSize` | PyFMReader_DyNaMo/src/pyfmreader/ardf/utils_ardf.py:274-277 | a DEF record whose size is below `skip + 55` fails: `ValueError` from the final skip when its title is ASCII, the decoding error otherwise |
| `RecordLayout.DefLayout` | PyFMReader_DyNaMo/src/pyfmreader/ardf/utils_ardf.py:256-277 | only IDEF (skip 96) and VDEF (skip 144) are accepted; a record whose size covers its fixed part is consumed whole, and its title is the 32 title bytes with trailing NULs stripped |
| `UtilsArdf.ReadText` | PyFMReader_DyNaMo/src/pyfmreader/ardf/utils_ardf.py:294-309 | the TEXT read agrees with its specification function on value, error and cursor |
| `RecordLayout.TextLayout` | PyFMReader_DyNaMo/src/pyfmreader/ardf/utils_ardf.py:294-309 | a TEXT record whose note lies in the file yields `size_note` characters, one per byte |
| `UtilsArdf.ReadTocHeader` | PyFMReader_DyNaMo/src/pyfmreader/ardf/utils_ardf.py:317-331 | the 32-byte table header read agrees with its specification function |
| `UtilsArdf.ReadPayload` | PyFMReader_DyNaMo/src/pyfmreader/ardf/utils_ardf.py:351-362 | the payload read for the layout chosen by `sizeEntry` agrees with its specification function, including the `ValueError` of a negative sample count |
| `UtilsArdf.Dispatch` | PyFMReader_DyNaMo/src/pyfmreader/ardf/utils_ardf.py:364-393 | the tag dispatch of one entry is `AddEntry`: the if/elif chain on the entry tag |
| `RecordLayout.NegativeWordsRaise` | PyFMReader_DyNaMo/src/pyfmreader/ardf/utils_ardf.py:340-362 | the sample count is negative exactly for an entry size below 16; such a payload, and any entry whose pointer is read, raises `ValueError` |
| `UtilsArdf.ReadEntry` | PyFMReader_DyNaMo/src/pyfmreader/ardf/utils_ardf.py:349-393 | one loop turn (pointer, payload, dispatch) agrees with `EntryAt` |
| `UtilsArdf.ReadEntries` | PyFMReader_DyNaMo/src/pyfmreader/ardf/utils_ardf.py:345-396 | the `while not done` entry loop agrees with `EntriesFrom` over at most `numbEntry` entries |
| `UtilsArdf.ReadToc` | PyFMReader_DyNaMo/src/pyfmreader/ardf/utils_ardf.py:317-398 | the table read agrees with `TocFrom` on value, error and cursor |
| `UtilsArdf.TocFromAt` | PyFMReader_DyNaMo/src/pyfmreader/ardf/utils_ardf.py:320-321 | a table read at an absolute address does not depend on where the cursor stood |
| `UtilsArdf.EntriesStep` | PyFMReader_DyNaMo/src/pyfmreader/ardf/utils_ardf.py:348-396 | one turn of the entry loop unfolds into the entry and the loop after it |
| `RecordLayout.StopRule` | PyFMReader_DyNaMo/src/pyfmreader/ardf/utils_ardf.py:383-391 | the zero tag ends the table exactly when the table header's tag is neither IBOX nor VTOC; no other tag ends it |
| `RecordLayout.UnknownTagRule` | PyFMReader_DyNaMo/src/pyfmreader/ardf/utils_ardf.py:392-393 | tags that are neither entry tags nor the zero tag fail with "<tag> not recognized" |
| `RecordLayout.AddEntryShape` | PyFMReader_DyNaMo/src/pyfmreader/ardf/utils_ardf.py:335-393 | one accepted entry keeps the table well shaped (paired lists grow together, only the layout's lists filled, samples in whole entries) and adds at most one entry |
| `RecordLayout.EntriesShape` | PyFMReader_DyNaMo/src/pyfmreader/ardf/utils_ardf.py:345-396 | the entry loop keeps the table well shaped and reads no more entries than allowed |
| `RecordLayout.TocShape` | PyFMReader_DyNaMo/src/pyfmreader/ardf/utils_ardf.py:317-398 | every table read is well shaped, holds at most `numbEntry` entries and carries the header's three counts |
| `Notes.FirstColon` | PyFMReader_DyNaMo/src/pyfmreader/ardf/utils_ardf.py:85-92 | the index found is a colon with no colon before it in the segment |
| `Notes.Key` | PyFMReader_DyNaMo/src/pyfmreader/ardf/utils_ardf.py:99-109 | the key is the title without whitespace and dots, with `n` in front when that is empty or starts with a digit |
| `Notes.CleanValid` | PyFMReader_DyNaMo/src/pyfmreader/ardf/utils_ardf.py:99-109 | every key built this way is non-empty, has no whitespace or dot and does not start with a digit |
| `Notes.Entry` | PyFMReader_DyNaMo/src/pyfmreader/ardf/utils_ardf.py:85-110 | a segment yields an entry exactly when it contains a colon; `Notes.EntryOf` gives its key and value |
| `Notes.EntryOf` | PyFMReader_DyNaMo/src/pyfmreader/ardf/utils_ardf.py:85-110 | a segment `title:rest` whose title has no colon stores `rest`, less one leading space, under the key of `title` |
| `Notes.SegsTerminated` | PyFMReader_DyNaMo/src/pyfmreader/ardf/utils_ardf.py:95-116 | splitting CR-terminated segments gives them back, whatever unterminated text follows the last CR |
| `Notes.TrailingIgnored` | PyFMReader_DyNaMo/src/pyfmreader/ardf/utils_ardf.py:83-118 | text after the last carriage return is never recorded |
| `Notes.LastLine` | PyFMReader_DyNaMo/src/pyfmreader/ardf/utils_ardf.py:106-110 | one more line without a colon leaves the dictionary as it was; with a colon it stores its value under its key, overwriting an earlier entry with that key |
| `Notes.NotesKeys` | PyFMReader_DyNaMo/src/pyfmreader/ardf/utils_ardf.py:61-118 | every key of the parsed notes is non-empty, free of whitespace and dots and not digit-leading |
| `Notes.ParseNotes` | PyFMReader_DyNaMo/src/pyfmreader/ardf/utils_ardf.py:61-118 | the one-pass scanner returns exactly `NotesOf(nts)`, the fold of the CR-terminated segments' entries |
| `Notes.StoreLine` | PyFMReader_DyNaMo/src/pyfmreader/ardf/utils_ardf.py:95-114 | the work at a CR (cut title and value, build the key, store if a colon was seen) is `Record` of that segment |
| `Notes.LineEntry` | PyFMReader_DyNaMo/src/pyfmreader/ardf/utils_ardf.py:85-104 | the positions the scanner holds at a CR delimit the entry of the line it closes |
| `Notes.NoColonEntry` | PyFMReader_DyNaMo/src/pyfmreader/ardf/utils_ardf.py:106 | a line without a colon holds no entry |
| `ReadArdf.ReadHeader` | PyFMReader_DyNaMo/src/pyfmreader/ardf/read_ardf.py:37-47 | the ARDF pointer at offset 0 and the FTOC after it agree with `HeaderAt` |
| `ReadArdf.NotArdf` | PyFMReader_DyNaMo/src/pyfmreader/ardf/read_ardf.py:37-38 | a file whose first pointer is not tagged ARDF is rejected, naming the tag found at offset 0 |
| `ReadArdf.HeaderMeaning` | PyFMReader_DyNaMo/src/pyfmreader/ardf/read_ardf.py:37-47 | the FTOC table is read at offset 16, right after the ARDF pointer |
| `ReadArdf.ReadTables` | PyFMReader_DyNaMo/src/pyfmreader/ardf/read_ardf.py:37-55 | the header and the TTOC table agree with their specification function |
| `ReadArdf.TablesMeaning` | PyFMReader_DyNaMo/src/pyfmreader/ardf/read_ardf.py:54-55 | the TTOC table is read at `ftoc.sizeTable + 16` |
| `ReadArdf.ReadFront` | PyFMReader_DyNaMo/src/pyfmreader/ardf/read_ardf.py:37-67 | the tables and the main note agree with `FrontAt` |
| `ReadArdf.MainNoteMeaning` | PyFMReader_DyNaMo/src/pyfmreader/ardf/read_ardf.py:63-67 | the main note is the text at the first TTOC text pointer, which must exist |
| `ReadArdf.FrontMeaning` | PyFMReader_DyNaMo/src/pyfmreader/ardf/read_ardf.py:46-67 | the front holds both tables and the main note from the first TTOC text pointer |
| `ArdfImages.ReadHead` | PyFMReader_DyNaMo/src/pyfmreader/ardf/read_ardf.py:90-100 | the IMAG table, its TTOC and its IDEF at the addresses the pointers give agree with `HeadAt` |
| `ArdfImages.ImageRecorded` | PyFMReader_DyNaMo/src/pyfmreader/ardf/read_ardf.py:90-104 | one image appends exactly one record read from its pointer (IMAG at `pnt`, TTOC at `pnt + IMAG.sizeTable`, IDEF after that) and its IDEF title |
| `ArdfImages.ReshapeMeaning` | PyFMReader_DyNaMo/src/pyfmreader/ardf/read_ardf.py:110-116 | reshaping succeeds exactly when the sample count is `lines * points`, and the rows laid end to end are the samples |
| `ArdfImages.ReshapeFlatten` | PyFMReader_DyNaMo/src/pyfmreader/ardf/read_ardf.py:113-116 | reshaping the flat contents of a well-shaped matrix gives it back |
| `ArdfImages.FlattenIndex` | PyFMReader_DyNaMo/src/pyfmreader/ardf/read_ardf.py:113-116 | element (i, j) of a `lines x points` matrix sits at `i * points + j` of its flat contents |
| `ArdfImages.PushMeaning` | PyFMReader_DyNaMo/src/pyfmreader/ardf/read_ardf.py:119-125 | stacking fails only on a shape mismatch with a stack that has lines, keeps the stack well shaped and puts the plane last; earlier planes survive unless the stack had no lines |
| `ArdfImages.ReadPlane` | PyFMReader_DyNaMo/src/pyfmreader/ardf/read_ardf.py:108-130 | the IBOX plane and the closing GAMI agree with `PlaneAt` |
| `ArdfImages.PlaneMeaning` | PyFMReader_DyNaMo/src/pyfmreader/ardf/read_ardf.py:108-130 | after an image the stack has the IDEF's shape and one more plane, or starts anew with it |
| `ArdfImages.StripBracketsMeaning` | PyFMReader_DyNaMo/src/pyfmreader/ardf/read_ardf.py:140-141 | when the note has a `[`, neither `[` nor `]` is left and every other character occurs as often as before; a note without `[` is unchanged |
| `PyOps.RemoveCharCounts` | PyFMReader_DyNaMo/src/pyfmreader/ardf/read_ardf.py:141 | `str.replace(c, '')` keeps every other character exactly as often as it occurs |
| `PyOps.RemoveCharAppend` | PyFMReader_DyNaMo/src/pyfmreader/ardf/read_ardf.py:141 | `str.replace(c, '')` of a join is the join of the replacements, so the characters that stay keep their order |
| `ArdfImages.ReadImageTexts` | PyFMReader_DyNaMo/src/pyfmreader/ardf/read_ardf.py:134-152 | the text loop of one image agrees with `TextsFrom` |
| `ArdfImages.TextRoles` | PyFMReader_DyNaMo/src/pyfmreader/ardf/read_ardf.py:134-152 | stated on the whole loop: which text becomes the thumb, image and quick note, and that a later image's single text leaves thumb and quick as they were |
| `ArdfImages.TextsPastRoles` | PyFMReader_DyNaMo/src/pyfmreader/ardf/read_ardf.py:144-150 | texts after the third change no note |
| `ArdfImages.TextsKeepQuickHasThumb` | PyFMReader_DyNaMo/src/pyfmreader/ardf/read_ardf.py:144-150 | the thumb note is set whenever the quick note is |
| `ArdfImages.ReadImage` | PyFMReader_DyNaMo/src/pyfmreader/ardf/read_ardf.py:85-152 | one image step agrees with `ImageAt` |
| `ArdfImages.ImageKeeps` | PyFMReader_DyNaMo/src/pyfmreader/ardf/read_ardf.py:85-152 | one image keeps the loop state consistent and gives the stack that image's shape |
| `ArdfImages.ReadImages` | PyFMReader_DyNaMo/src/pyfmreader/ardf/read_ardf.py:78-152 | the image loop agrees with `ImagesFrom` over the IMAG pointers |
| `ArdfImages.ImagesMeaning` | PyFMReader_DyNaMo/src/pyfmreader/ardf/read_ardf.py:78-152 | one record and one IDEF title per IMAG pointer, in file order, each read where its pointer says |
| `ReadArdf.ReadImagePart` | PyFMReader_DyNaMo/src/pyfmreader/ardf/read_ardf.py:37-152 | header, main note and image loop agree with `ImagePartAt` |
| `ReadArdf.ImagePartMeaning` | PyFMReader_DyNaMo/src/pyfmreader/ardf/read_ardf.py:78-152 | the image loop runs over the FTOC's IMAG pointers and gathers one consistent record per pointer |
| `ReadArdf.NoteTextMeaning` | PyFMReader_DyNaMo/src/pyfmreader/ardf/read_ardf.py:160-169 | the combined note is main + thumb + quick if a quick note was seen, else main + thumb if a thumb note was seen, else main |
| `ArdfVolumes.LinkAdvances` | PyFMReader_DyNaMo/src/pyfmreader/ardf/read_ardf.py:207-226 | a VCHN or XDEF record that is read moves the cursor forward within the file, and a channel name has at most 32 characters |
| `ArdfVolumes.LinkRejects` | PyFMReader_DyNaMo/src/pyfmreader/ardf/read_ardf.py:228-229 | a record tagged neither VCHN nor XDEF fails with "<tag> not recognized" |
| `ArdfVolumes.LinkShortSize` | PyFMReader_DyNaMo/src/pyfmreader/ardf/read_ardf.py:213-224 | a VCHN record declared below 47 bytes, or an XDEF record more than one byte short of its 24-byte head and text, makes `read` raise `ValueError` |
| `ArdfVolumes.ReadLink` | PyFMReader_DyNaMo/src/pyfmreader/ardf/read_ardf.py:207-229 | one record of the channel chain agrees with `LinkAt`, including the `ValueError` of a remaining size below -1 |
| `ArdfVolumes.ReadChannels` | PyFMReader_DyNaMo/src/pyfmreader/ardf/read_ardf.py:205-229 | the `while not done` VCHN/XDEF loop agrees with `ChannelsAt` |
| `ArdfVolumes.ChannelsExtend` | PyFMReader_DyNaMo/src/pyfmreader/ardf/read_ardf.py:209-215 | the chain keeps its names and adds one name of at most 32 characters per VCHN record, in file order |
| `ArdfVolumes.ReadSample` | PyFMReader_DyNaMo/src/pyfmreader/ardf/read_ardf.py:246-256 | one VSET sample agrees with `SampleAt` |
| `ArdfVolumes.SampleMeaning` | PyFMReader_DyNaMo/src/pyfmreader/ardf/read_ardf.py:247-256 | with a non-zero pointer the sample records its VSET, `scanDown = (line != r - 1)` and `trace = (point == 0)`; with a zero pointer nothing changes |
| `ArdfVolumes.ReadSamples` | PyFMReader_DyNaMo/src/pyfmreader/ardf/read_ardf.py:245-256 | the loop over `r in [1, lines]` agrees with `SamplesFrom` |
| `ArdfVolumes.SamplesMeaning` | PyFMReader_DyNaMo/src/pyfmreader/ardf/read_ardf.py:245-256 | the sample for line `lines` overrides the one for line 1; with both pointers zero the volume has no scan direction |
| `ArdfVolumes.ZerosMeaning` | PyFMReader_DyNaMo/src/pyfmreader/ardf/read_ardf.py:261 | `idx_zero` holds exactly the indices of the zero line pointers, ascending |
| `ArdfVolumes.ReadIndex` | PyFMReader_DyNaMo/src/pyfmreader/ardf/read_ardf.py:236-256 | the VTOC, the mandatory MLOV and the two samples agree with `IndexAt` |
| `ArdfVolumes.ReadBody` | PyFMReader_DyNaMo/src/pyfmreader/ardf/read_ardf.py:202-256 | channels then index agree with `BodyAt` |
| `ArdfVolumes.ReadVolume` | PyFMReader_DyNaMo/src/pyfmreader/ardf/read_ardf.py:188-270 | the volume agrees with `VolumeAt` and its gap with `GapOf` |
| `ArdfVolumes.VolumeHasLines` | PyFMReader_DyNaMo/src/pyfmreader/ardf/read_ardf.py:245-247 | a volume that is read has a VTOC of line pointers |
| `ArdfVolumes.ReadVolumes` | PyFMReader_DyNaMo/src/pyfmreader/ardf/read_ardf.py:183-270 | the volume loop agrees with `VolumesFrom` |
| `ArdfVolumes.VolumesMeaning` | PyFMReader_DyNaMo/src/pyfmreader/ardf/read_ardf.py:183-273 | one record per VOLM pointer, each read from its pointer, and the gap of the last volume only |
| `ReadArdf.ReadVolumePart` | PyFMReader_DyNaMo/src/pyfmreader/ardf/read_ardf.py:177-270 | the volume part agrees with `VolumePartAt` |
| `ReadArdf.VolumePartMeaning` | PyFMReader_DyNaMo/src/pyfmreader/ardf/read_ardf.py:177-273 | one record per VOLM pointer; with a volume the trim uses the last one's zero lines, with none there is nothing to trim by |
| `ReadArdf.NoVolumes` | PyFMReader_DyNaMo/src/pyfmreader/ardf/read_ardf.py:273 | a file without a force volume fails at `idx_zero`, which is never bound |
| `ReadArdf.DeleteColumnsMeaning` | PyFMReader_DyNaMo/src/pyfmreader/ardf/read_ardf.py:279 | deleting along axis 1 keeps every plane and row, removes exactly the normalised slice from each row, and leaves a well-shaped array that many points narrower |
| `ReadArdf.TrimmedMeaning` | PyFMReader_DyNaMo/src/pyfmreader/ardf/read_ardf.py:273-279 | without zero lines or without images nothing is deleted; otherwise the inclusive range [min - inc_min, max + inc_max] is deleted |
| `ReadArdf.ReadArdfMetadata` | PyFMReader_DyNaMo/src/pyfmreader/ardf/read_ardf.py:14-314 | the reader agrees with `MetadataOf` |
| `ReadArdf.MetadataMeaning` | PyFMReader_DyNaMo/src/pyfmreader/ardf/read_ardf.py:25-307 | FileName is the basename without extension, FileType "ARDF", endNote `{IsImage: "1"}`, FileStructure the tables, images and volumes read, Notes parsed from the combined note, y trimmed by the last volume's gap |
| `ReadArdf.MetadataRecords` | PyFMReader_DyNaMo/src/pyfmreader/ardf/read_ardf.py:85-232 | one title and image record per IMAG pointer, at least one volume, one channel list and volume record per VOLM pointer, each read from its own pointer |
| `GetArdfData.SelectMeaning` | PyFMReader_DyNaMo/src/pyfmreader/ardf/get_ardf_data.py:58-77 | with two or more volumes volm1 is chosen exactly when `trace` equals its trace flag, else volm2; with one, volm1; the channel count comes from volm1 |
| `GetArdfData.AdjLineMeaning` | PyFMReader_DyNaMo/src/pyfmreader/ardf/get_ardf_data.py:70-74 | the adjusted line is `lines - line - 1` for a downward scan, else the line; the adjustment is its own inverse |
| `GetArdfData.ColumnStack` | PyFMReader_DyNaMo/src/pyfmreader/ardf/get_ardf_data.py:124 | a stacked matrix has one column per array and as many rows as the arrays are long |
| `GetArdfData.ColumnStackMeaning` | PyFMReader_DyNaMo/src/pyfmreader/ardf/get_ardf_data.py:124 | stacking succeeds exactly for a non-empty list of equally long arrays, and column j is array j |
| `GetArdfData.ReadVdats` | PyFMReader_DyNaMo/src/pyfmreader/ardf/get_ardf_data.py:120-122 | the channel loop agrees with `VdatsFrom` |
| `GetArdfData.VdatsLength` | PyFMReader_DyNaMo/src/pyfmreader/ardf/get_ardf_data.py:120-122 | the channel loop reads exactly `numbChannels` records |
| `GetArdfData.ReadPoint` | PyFMReader_DyNaMo/src/pyfmreader/ardf/get_ardf_data.py:106-126 | one point (VSET, VNAM, VDATs, XDAT) agrees with `PointAt` |
| `GetArdfData.ReadPointRest` | PyFMReader_DyNaMo/src/pyfmreader/ardf/get_ardf_data.py:114-126 | the part after the VSET agrees with its specification function |
| `GetArdfData.ReadPointTail` | PyFMReader_DyNaMo/src/pyfmreader/ardf/get_ardf_data.py:124-126 | column stacking then the XDAT agree with `PointTail` |
| `GetArdfData.PointMeaning` | PyFMReader_DyNaMo/src/pyfmreader/ardf/get_ardf_data.py:118-126 | a point's plane has one column per channel and one row per sample, and its last column is the last VDAT's samples |
| `GetArdfData.Pad` | PyFMReader_DyNaMo/src/pyfmreader/ardf/get_ardf_data.py:136-153 | a plane padded to `rows` keeps its own rows first and in order, every added row is `nc` zeros, and it has `rows` rows (its own when it already had as many) |
| `GetArdfData.PadPad` | PyFMReader_DyNaMo/src/pyfmreader/ardf/get_ardf_data.py:136-153 | padding twice is padding once to the larger row count |
| `GetArdfData.StackOnMeaning` | PyFMReader_DyNaMo/src/pyfmreader/ardf/get_ardf_data.py:129-155 | on a stack with rows, old planes and new plane are each padded to the larger row count and the new plane goes on top |
| `GetArdfData.ReadLine` | PyFMReader_DyNaMo/src/pyfmreader/ardf/get_ardf_data.py:104-159 | the point loop agrees with `PointsFrom` |
| `GetArdfData.PointsLength` | PyFMReader_DyNaMo/src/pyfmreader/ardf/get_ardf_data.py:104-159 | the point loop reads exactly `numbPoints` points |
| `GetArdfData.LineLists` | PyFMReader_DyNaMo/src/pyfmreader/ardf/get_ardf_data.py:106-159 | every list holds one entry per point in reading order: VSET numbers, VNAM name, last VDAT's pnt0/pnt1/pnt2 |
| `GetArdfData.LeadingEmptyMeaning` | PyFMReader_DyNaMo/src/pyfmreader/ardf/get_ardf_data.py:129-155 | the points counted are the maximal leading run of row-less points |
| `GetArdfData.LinePlanes` | PyFMReader_DyNaMo/src/pyfmreader/ardf/get_ardf_data.py:128-155 | from the first point with rows on, plane k is the plane of point k + LeadingEmpty, zero-padded to the longest point; nothing is truncated |
| `GetArdfData.FlippedTwice` | PyFMReader_DyNaMo/src/pyfmreader/ardf/get_ardf_data.py:162-172 | reversing every list and the planes twice gives the line back |
| `GetArdfData.ExtractArdfData` | PyFMReader_DyNaMo/src/pyfmreader/ardf/get_ardf_data.py:40-189 | the extractor agrees with `ExtractOf`: the handed-in structure, or the one read from the file |
| `GetArdfData.ExtractWith` | PyFMReader_DyNaMo/src/pyfmreader/ardf/get_ardf_data.py:58-189 | the extraction with a known structure agrees with `ExtractFrom` |
| `GetArdfData.ExtractLineMeaning` | PyFMReader_DyNaMo/src/pyfmreader/ardf/get_ardf_data.py:104-172 | a whole line has one entry per point of the VDEF in every list, reversed when the first point number read is not 0 |
| `GetArdfData.PointIsLineAt` | PyFMReader_DyNaMo/src/pyfmreader/ardf/get_ardf_data.py:175-187 | with `get_point != -1` the result is entry `get_point` (Python index) of the whole-line result after the same flip |
| `GetArdfData.ExtractNoData` | PyFMReader_DyNaMo/src/pyfmreader/ardf/get_ardf_data.py:83-86 | a zero line pointer gives the empty result, whatever point is asked for; a non-zero one never does |
| `ParseArdfHeader.PositionsMeaning` | PyFMReader_DyNaMo/src/pyfmreader/ardf/parseARDFheader.py:35-37 | there are `nlines * npoints` pairs and pair k is `(k div npoints, k mod npoints)` |
| `ParseArdfHeader.PositionsInRange` | PyFMReader_DyNaMo/src/pyfmreader/ardf/parseARDFheader.py:35-37 | every pair is in range and no pair occurs twice |
| `ParseArdfHeader.AllPositions` | PyFMReader_DyNaMo/src/pyfmreader/ardf/parseARDFheader.py:33-37 | the nested loop builds the line-major list `Positions(nlines, npoints)` |
| `ParseArdfHeader.ParseArdfHeader` | PyFMReader_DyNaMo/src/pyfmreader/ardf/parseARDFheader.py:18-49 | the method agrees with `HeaderOf` |
| `ParseArdfHeader.HeaderSucceeds` | PyFMReader_DyNaMo/src/pyfmreader/ardf/parseARDFheader.py:27-46 | a header exists exactly when there is an image stack and the notes hold InvOLS and SpringConstant; each missing piece is its own error |
| `ParseArdfHeader.HeaderFields` | PyFMReader_DyNaMo/src/pyfmreader/ardf/parseARDFheader.py:20-46 | the fields of a parsed header, one by one |
| `ParseArdfHeader.HeaderMeaning` | PyFMReader_DyNaMo/src/pyfmreader/ardf/parseARDFheader.py:20-43 | Entry_filename has no '/', file_type is the suffix after the last '.', the metadata is kept whole, Entry_tot_nb_curve == len(all_positions) == lines * points, height_channel_key is "height" |
| `LoadArdfCurve.FlipMeaning` | PyFMReader_DyNaMo/src/pyfmreader/ardf/loadARDFcurve.py:41 | negating a sample twice gives it back and keeps it zero or nonzero |
| `LoadArdfCurve.NegatedMeaning` | PyFMReader_DyNaMo/src/pyfmreader/ardf/loadARDFcurve.py:41 | negating twice gives the array back, and zero samples stay where they were |
| `LoadArdfCurve.LastNonzero` | PyFMReader_DyNaMo/src/pyfmreader/ardf/loadARDFcurve.py:38-40 | the index found holds a nonzero sample and no later sample is nonzero; none means no sample is nonzero |
| `LoadArdfCurve.UpToLastNonzero` | PyFMReader_DyNaMo/src/pyfmreader/ardf/loadARDFcurve.py:38-41 | the cut succeeds exactly when some sample is nonzero, and is the prefix ending at the last nonzero sample; otherwise IndexError |
| `LoadArdfCurve.UpToLastNonzeroIdempotent` | PyFMReader_DyNaMo/src/pyfmreader/ardf/loadARDFcurve.py:38-41 | cutting a second time changes nothing |
| `LoadArdfCurve.Cleaned` | PyFMReader_DyNaMo/src/pyfmreader/ardf/loadARDFcurve.py:34 | each cleaned name is a prefix of the channel name that does not end in NUL, and everything cut off is NUL |
| `LoadArdfCurve.ChannelMeaning` | PyFMReader_DyNaMo/src/pyfmreader/ardf/loadARDFcurve.py:38-41 | a missing name is a ValueError naming it; otherwise the channel is the first column of that name cut after its last nonzero sample |
| `LoadArdfCurve.MissingNote` | PyFMReader_DyNaMo/src/pyfmreader/ardf/loadARDFcurve.py:47-86 | the note check passes exactly when every key the loader reads is present, and otherwise reports the first missing key |
| `LoadArdfCurve.SamplesMeaning` | PyFMReader_DyNaMo/src/pyfmreader/ardf/loadARDFcurve.py:38-41 | both ZSnsr and Defl are found and cut after a nonzero sample and the deflection is negated; the first missing name is the error |
| `LoadArdfCurve.SplitMeaning` | PyFMReader_DyNaMo/src/pyfmreader/ardf/loadARDFcurve.py:61-83 | approach is `[pnt0, pnt1)`, retract `[pnt1+1, len(defl))`, each nb_point its deflection slice length, 3 columns, setpoint 0, and with `pnt0 <= pnt1 < len` approach + sample pnt1 + retract is the deflection from pnt0 |
| `LoadArdfCurve.SegmentsMeaning` | PyFMReader_DyNaMo/src/pyfmreader/ardf/loadARDFcurve.py:34-86 | the segments exist exactly when there is a first channel list, one extracted point, both channels and every note key; each failure is its own error |
| `LoadArdfCurve.NeverWholeLine` | PyFMReader_DyNaMo/src/pyfmreader/ardf/loadARDFcurve.py:29-31 | a curve position always names a point, so the extraction never returns a whole line |
| `LoadArdfCurve.CurveMeaning` | PyFMReader_DyNaMo/src/pyfmreader/ardf/loadARDFcurve.py:27-31 | curve idx is read at the position `all_positions_ardf[idx]` (IndexError outside the list) as one point of the trace volume, with the header as file structure |
| `LoadArdfCurve.Segment.Fill` | PyFMReader_DyNaMo/src/pyfmreader/ardf/loadARDFcurve.py:61-86 | the segment's assigned fields are exactly the data given |
| `LoadArdfCurve.LoadArdfCurveData` | PyFMReader_DyNaMo/src/pyfmreader/ardf/loadARDFcurve.py:12-92 | fails exactly as `CurveOf`; otherwise a new ForceCurve for idx with one approach segment "0" in extend_segments and one retract segment "1" in retract_segments holding the segments `CurveOf` describes |
| `PyFmReader.SuffixMeaning` | PyFMReader_DyNaMo/src/pyfmreader/pyfmreader.py:39-43 | the suffix has no '.'; it is the last piece unless that is "zip", and only the path "zip" has none |
| `PyFmReader.ZipIsTransparent` | PyFMReader_DyNaMo/src/pyfmreader/pyfmreader.py:39-43 | appending ".zip" to a path whose last piece is not "zip" changes neither the suffix nor the dispatch |
| `PyFmReader.FirstClaim` | PyFMReader_DyNaMo/src/pyfmreader/pyfmreader.py:47-59 | the kind found accepts the suffix; none found means no kind in the list accepts it |
| `PyFmReader.FirstClaimIsFirst` | PyFMReader_DyNaMo/src/pyfmreader/pyfmreader.py:47-59 | every kind before the one found refuses the suffix |
| `PyFmReader.DispatchIsFirstClaim` | PyFMReader_DyNaMo/src/pyfmreader/pyfmreader.py:47-70 | the if/elif chain is the first of nanoscope, jpk, uff, jpk-thermal, psnex that accepts the suffix, with the instrument check for psnex, and None when none does |
| `PyFmReader.DispatchOrder` | PyFMReader_DyNaMo/src/pyfmreader/pyfmreader.py:47-65 | the branch taken accepts the suffix and every earlier branch refuses it |
| `Export.FindPiezoCoord` | PyFMGUI_DyNaMo/src/pyfmgui/export.py:227-238 | fails with a numpy ValueError exactly for a JPK force map with no rows, where the rebuilt array is one-dimensional and `fliplr` refuses it |
| `Export.FindPiezoCoordMeaning` | PyFMGUI_DyNaMo/src/pyfmgui/export.py:227-238 | a returned map is nx x ny, is the flat list read ny at a time, and the flat list is a permutation of 0 .. nx*ny - 1 |
| `Export.BaseIsArange` | PyFMGUI_DyNaMo/src/pyfmgui/export.py:229 | the base grid is `ny` rows of `nx` and flattens to 0, 1, ..., nx*ny - 1 |
| `Export.RotFlipIsTranspose` | PyFMGUI_DyNaMo/src/pyfmgui/export.py:235 | `rot90(fliplr(g))` is the transpose of g |
| `Export.CoordsMeaning` | PyFMGUI_DyNaMo/src/pyfmgui/export.py:229-233 | the grid before the turn holds the curve number `Coord` at every place: odd rows reversed for a JPK force map |
| `Export.PiezoAt` | PyFMGUI_DyNaMo/src/pyfmgui/export.py:227-238 | entry (i, j) of the 2-D map is the curve at column i of row j and it is entry `i*ny + j` of the flat list |
| `Export.PiezoGrid` | PyFMGUI_DyNaMo/src/pyfmgui/export.py:235-237 | the 2-D map is nx x ny, the base grid transposed, and the flat list has nx*ny entries |
| `Export.PiezoLinear` | PyFMGUI_DyNaMo/src/pyfmgui/export.py:237 | entry k of the flat list is the curve at column `k div ny` of row `k mod ny` |
| `Export.PiezoPlain` | PyFMGUI_DyNaMo/src/pyfmgui/export.py:229-237 | for any extension but jpk-force-map, flat entry `i*ny + j` is `j*nx + i` |
| `Export.CoordInverse` | PyFMGUI_DyNaMo/src/pyfmgui/export.py:229-233 | a place of the grid is found back from its curve number |
| `Export.PiezoPermutation` | PyFMGUI_DyNaMo/src/pyfmgui/export.py:237-238 | the flat list has nx*ny entries, all below nx*ny, pairwise distinct, and every number below nx*ny occurs |
In the `LoadArdfCurve.SegmentsMeaning` row, the guard `"TriggerType" in
m.notes` only keeps the statement well-defined. When the note check passes,
that key is present anyway.

## Left out

- File I/O is not modelled. The file is the parameter `data`, and
  `os.path.getsize` is `|data|`; `open` and `close` are not modelled.
- The constants module is not part of this model. The UFF code and version (`parseARDFheader`) and the suffix lists (`loadfile`) are parameters.
- Floating point is not modelled:
  - the `InvOLS * 1e9` and `SpringConstant` conversions;
  - the time axis, sampling rate, velocities and Z displacements of the segments.

  The header keeps the InvOLS and SpringConstant note texts. The loader checks
  that every note key it reads is present. A `float()` parse error and the
  division by a zero `ForceDecimation` are not modelled.
- IEEE-754 sample semantics are not modelled. "Nonzero" means a word other than `+0.0` and `-0.0`.
- `LoadArdfCurve.Flip`: a NaN sample is negated by flipping its sign bit too; NumPy's NaN sign under `* -1` is not modelled.
- VNAM names are kept as bytes; `decode('utf-8')` and its errors are not modelled.
- `str.isdigit` covers only the Latin-1 range: the ten ASCII digits and the superscripts one, two and three.
- CRC values are read but never checked, as in the source.
- The loaders that `loadfile` dispatches to are not part of this model:
  - the result names the loader that would be called;
  - the PS-NEX instrument property, read from a TDMS file, is the parameter `instrument`.
- `utils/segment.py` and `utils/forcecurve.py` are not part of this model beyond the fields the loader assigns. The constructors' other defaults are placeholders.
- Console output (`print`) is not modelled.
- `export.py` is not modelled beyond `find_piezo_coord`: its CSV, TIFF and pandas export and its process pool are absent.
- The thin wrappers `loadARDFfile.py` and `loadARDFimg.py` are not modelled.
