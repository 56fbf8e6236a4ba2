/** The byte layouts of the ARDF records, stated against the readers'
    specification functions: where each field sits, how far the cursor
    moves, and encoders whose output the readers decode back. */
module RecordLayout {
  import opened Wrappers
  import opened Bytes
  import opened Errors
  import opened Stream
  import opened UtilsArdf
  import PyOps

  /** A pointer read succeeds exactly when 16 bytes remain and the tag bytes
      are ASCII; it then consumes exactly those 16 bytes, with the u32 fields
      at offsets 0, 4 and 12 and the tag at offset 8. */
  lemma PointerLayout(data: seq<byte>, p: nat)
    ensures PointerAt(data, p).Success? <==> p + 16 <= |data| && IsAscii(data[p + 8..p + 12])
    ensures PointerAt(data, p).Success? ==>
      PointerAt(data, p).value ==
        Parsed(Pointer(LE(data[p..p + 4]), LE(data[p + 4..p + 8]), Chars(data[p + 8..p + 12]),
                       LE(data[p + 12..p + 16])), p + 16)
  {
    if p + 16 <= |data| {
      assert Chunk(data, p + 8, 4) == data[p + 8..p + 12];
    } else if p + 8 <= |data| {
      var b := Chunk(data, p + 8, 4);
      if |b| < 4 {
        assert Chunk(data, p + 8 + |b|, 4) == [];
      }
    }
  }

  /** The pointer with `address == -1` is read where the cursor stands;
      otherwise at `address`, which must not be negative. */
  lemma PointerFromStart(data: seq<byte>, pos: nat, address: int)
    ensures address == -1 ==> PointerFrom(data, pos, address) == PointerAt(data, pos)
    ensures address >= 0 ==> PointerFrom(data, pos, address) == PointerAt(data, address)
    ensures address < -1 ==> PointerFrom(data, pos, address) == Failure(NegativeSeek)
  {
  }

  /** A pointer whose fields fit their widths and whose tag is four ASCII characters. */
  predicate ValidPointer(x: Pointer) {
    x.crc < 0x1_0000_0000 && x.size < 0x1_0000_0000 && x.misc < 0x1_0000_0000 &&
    |x.tag| == 4 && forall k :: 0 <= k < 4 ==> x.tag[k] as int < 128
  }

  function EncodePointer(x: Pointer): (r: seq<byte>)
    requires ValidPointer(x)
    ensures |r| == 16
  {
    EncodeLE(x.crc, 4) + EncodeLE(x.size, 4) + Latin1(x.tag) + EncodeLE(x.misc, 4)
  }

  /** Reading an encoded pointer, wherever it sits in the file, gives it back
      and leaves the cursor just after it. */
  lemma {:induction false} PointerRoundTrip(x: Pointer, pre: seq<byte>, post: seq<byte>)
    requires ValidPointer(x)
    ensures PointerAt(pre + EncodePointer(x) + post, |pre|) == Success(Parsed(x, |pre| + 16))
  {
    var data := pre + EncodePointer(x) + post;
    var p := |pre|;
    var e := EncodePointer(x);
    assert data[p..p + 16] == e;
    assert data[p..p + 4] == EncodeLE(x.crc, 4);
    assert data[p + 4..p + 8] == EncodeLE(x.size, 4);
    assert data[p + 8..p + 12] == Latin1(x.tag);
    assert data[p + 12..p + 16] == EncodeLE(x.misc, 4);
    Pow256Values();
    DecodeEncodeLE(x.crc, 4);
    DecodeEncodeLE(x.size, 4);
    DecodeEncodeLE(x.misc, 4);
    PointerLayout(data, p);
  }

  /** The tag check fails exactly on a mismatch, and then names the record's
      start, 16 bytes before `tell`. */
  lemma CheckTypeMeaning(found: string, expected: string, tell: int)
    ensures CheckType(found, expected, tell).Pass? <==> found == expected
    ensures found != expected ==> CheckType(found, expected, tell) == Fail(WrongType(expected, found, tell - 16))
  {
  }

  /** A typed pointer read fails with the pointer's own start as location. */
  lemma {:induction false} TypedPointerMismatch(data: seq<byte>, p: nat, expected: string)
    requires PointerAt(data, p).Success?
    requires PointerAt(data, p).value.value.tag != expected
    ensures TypedPointerAt(data, p, expected) ==
      Failure(WrongType(expected, PointerAt(data, p).value.value.tag, p))
  {
    PointerLayout(data, p);
  }

  /** A VSET record is 48 bytes: the pointer, three u32 ids, four unused
      bytes and the two u64 neighbour offsets. */
  lemma {:induction false} VsetLayout(data: seq<byte>, p: nat)
    requires p + 48 <= |data|
    ensures VsetAt(data, p).Success? <==> TypedPointerAt(data, p, "VSET").Success?
    ensures VsetAt(data, p).Success? ==>
      VsetAt(data, p).value ==
        Parsed(Vset(LE(data[p + 16..p + 20]), LE(data[p + 20..p + 24]), LE(data[p + 24..p + 28]),
                    LE(data[p + 32..p + 40]), LE(data[p + 40..p + 48])), p + 48)
  {
    PointerLayout(data, p);
  }

  /** A VNAM record whose declared size covers its name is consumed whole:
      the cursor ends `size` bytes after its start, and the name is the
      `sizeText` bytes after the four u32 fields. */
  lemma {:induction false} VnamLayout(data: seq<byte>, p: nat)
    requires p + 32 <= |data|
    requires 32 + LE(data[p + 28..p + 32]) <= LE(data[p + 4..p + 8])
    requires p + LE(data[p + 4..p + 8]) <= |data|
    ensures VnamAt(data, p).Success? <==> TypedPointerAt(data, p, "VNAM").Success?
    ensures VnamAt(data, p).Success? ==>
      VnamAt(data, p).value.after == p + LE(data[p + 4..p + 8]) &&
      VnamAt(data, p).value.value.name == data[p + 32..p + 32 + LE(data[p + 28..p + 32])]
  {
    TypedPointerAfter(data, p, "VNAM");
    if TypedPointerAt(data, p, "VNAM").Success? {
      FieldInFile(data, p + 16, 4);
      FieldInFile(data, p + 20, 4);
      FieldInFile(data, p + 24, 4);
      FieldInFile(data, p + 28, 4);
      var n := LE(data[p + 28..p + 32]);
      var size := LE(data[p + 4..p + 8]);
      BytesInFile(data, p + 32, n);
      BytesInFile(data, p + 32 + n, size - 32 - n);
    }
  }

  /** A VNAM record whose declared size falls more than one byte short of
      its fixed part and name asks `read` for less than -1 bytes and
      raises. */
  lemma {:induction false} VnamShortSize(data: seq<byte>, p: nat)
    requires p + 32 <= |data|
    requires TypedPointerAt(data, p, "VNAM").Success?
    requires LE(data[p + 4..p + 8]) - 32 - LE(data[p + 28..p + 32]) < -1
    ensures VnamAt(data, p) == Failure(NegativeRead)
  {
    TypedPointerAfter(data, p, "VNAM");
    FieldInFile(data, p + 16, 4);
    FieldInFile(data, p + 20, 4);
    FieldInFile(data, p + 24, 4);
    FieldInFile(data, p + 28, 4);
  }

  /** A typed pointer that is read takes exactly its 16 bytes, and its
      size is the u32 at offset 4. */
  lemma TypedPointerAfter(data: seq<byte>, p: nat, expected: string)
    ensures TypedPointerAt(data, p, expected).Success? ==>
      TypedPointerAt(data, p, expected).value.after == p + 16 &&
      TypedPointerAt(data, p, expected).value.value.size == LE(data[p + 4..p + 8])
  {
    PointerLayout(data, p);
  }

  /** A pointer that is read lies wholly inside the file. */
  lemma PointerInFile(data: seq<byte>, p: nat)
    ensures PointerAt(data, p).Success? ==> p + 16 <= |data| && PointerAt(data, p).value.after == p + 16
  {
    PointerLayout(data, p);
  }

  /** A pointer with the expected ASCII tag is read. */
  lemma TypedPointerHolds(data: seq<byte>, p: nat, expected: string)
    requires p + 16 <= |data| && IsAscii(data[p + 8..p + 12])
    requires Chars(data[p + 8..p + 12]) == expected
    ensures TypedPointerAt(data, p, expected).Success?
  {
    PointerLayout(data, p);
  }

  /** A VDAT record whose samples are all in the file is the eight u32
      fields at offsets 16 to 44 (its `sizeData` counts the samples), then,
      after two unused u32 words, exactly `sizeData` little-endian words
      starting at offset 56; the cursor ends after the last of them. */
  lemma {:induction false} VdatLayout(data: seq<byte>, p: nat)
    requires p + 56 <= |data|
    requires p + 56 + 4 * LE(data[p + 28..p + 32]) <= |data|
    ensures VdatAt(data, p).Success? <==> TypedPointerAt(data, p, "VDAT").Success?
    ensures VdatAt(data, p).Success? ==>
      var n := LE(data[p + 28..p + 32]);
      VdatAt(data, p).value ==
        Parsed(Vdat(LE(data[p + 16..p + 20]), LE(data[p + 20..p + 24]), LE(data[p + 24..p + 28]), n,
                    LE(data[p + 32..p + 36]), LE(data[p + 36..p + 40]), LE(data[p + 40..p + 44]),
                    LE(data[p + 44..p + 48]), WordsFrom(data, p + 56, n)),
               p + 56 + 4 * n)
  {
    TypedPointerAfter(data, p, "VDAT");
    if TypedPointerAt(data, p, "VDAT").Success? {
      VdatChain(data, p);
      var n := LE(data[p + 28..p + 32]);
      var raw := data[p + 56..p + 56 + 4 * n];
      BytesInFile(data, p + 56, 4 * n);
      assert |raw| == 4 * n;
      Quads(n);
    }
  }

  /** The `n` little-endian words stored from `pos` on. */
  function WordsFrom(data: seq<byte>, pos: nat, n: nat): seq<Word>
    requires pos + 4 * n <= |data|
  {
    Quads(n);
    Words(data[pos..pos + 4 * n])
  }

  lemma Quads(n: nat)
    ensures (4 * n) % 4 == 0 && (4 * n) / 4 == n
  {
  }

  /** The ten u32 fields of a VDAT record, one after the other. */
  lemma VdatChain(data: seq<byte>, p: nat)
    requires p + 56 <= |data|
    ensures
      var force := FromBytesAt(data, p + 16, 4);
      var line := FromBytesAt(data, force.after, 4);
      var point := FromBytesAt(data, line.after, 4);
      var sizeData := FromBytesAt(data, point.after, 4);
      var forceType := FromBytesAt(data, sizeData.after, 4);
      var pnt0 := FromBytesAt(data, forceType.after, 4);
      var pnt1 := FromBytesAt(data, pnt0.after, 4);
      var pnt2 := FromBytesAt(data, pnt1.after, 4);
      var dum0 := FromBytesAt(data, pnt2.after, 4);
      var dum1 := FromBytesAt(data, dum0.after, 4);
      && dum1.after == p + 56
      && force.value == LE(data[p + 16..p + 20]) && line.value == LE(data[p + 20..p + 24])
      && point.value == LE(data[p + 24..p + 28]) && sizeData.value == LE(data[p + 28..p + 32])
      && forceType.value == LE(data[p + 32..p + 36]) && pnt0.value == LE(data[p + 36..p + 40])
      && pnt1.value == LE(data[p + 40..p + 44]) && pnt2.value == LE(data[p + 44..p + 48])
  {
  }

  /** Bytes that lie wholly in the file are read whole. */
  lemma BytesInFile(data: seq<byte>, pos: nat, n: nat)
    requires pos + n <= |data|
    ensures BytesAt(data, pos, n) == Parsed(data[pos..pos + n], pos + n)
  {
    if pos == |data| {
      assert data[pos..pos + n] == [];
    }
  }

  /** A field that lies wholly in the file is read whole. */
  lemma FieldInFile(data: seq<byte>, pos: nat, n: nat)
    requires pos + n <= |data|
    ensures FromBytesAt(data, pos, n) == Parsed(LE(data[pos..pos + n]), pos + n)
  {
  }

  /** An XDAT record is skipped to its end; a VSET in its place leaves the
      cursor at that VSET's start; any other tag fails. */
  lemma {:induction false} XdatLayout(data: seq<byte>, p: nat)
    requires p + 16 <= |data| && IsAscii(data[p + 8..p + 12])
    ensures var tag := Chars(data[p + 8..p + 12]);
      && (XdatAt(data, p).Success? <==> tag == "XDAT" || tag == "VSET")
      && (tag == "XDAT" ==> XdatAt(data, p) == Success(Parsed((), p + LE(data[p + 4..p + 8]))))
      && (tag == "VSET" ==> XdatAt(data, p) == Success(Parsed((), p)))
  {
    PointerLayout(data, p);
  }

  /** A DEF record whose declared size covers its fixed part is consumed
      whole, and its title is the 32 title bytes without trailing NULs. */
  lemma {:induction false} DefLayout(data: seq<byte>, p: nat, expected: string)
    requires p + 16 <= |data| && IsAscii(data[p + 8..p + 12])
    requires Chars(data[p + 8..p + 12]) == expected
    requires expected == "IDEF" || expected == "VDEF"
    requires var skip := if expected == "IDEF" then 96 else 144;
      skip + 56 <= LE(data[p + 4..p + 8]) && p + LE(data[p + 4..p + 8]) <= |data|
    ensures var skip := if expected == "IDEF" then 96 else 144;
      var title := data[p + 24 + skip..p + 56 + skip];
      && (DefAt(data, p, expected).Success? <==> IsAscii(title))
      && (DefAt(data, p, expected).Success? ==>
            DefAt(data, p, expected).value ==
              Parsed(Def(LE(data[p + 16..p + 20]), LE(data[p + 20..p + 24]), PyOps.RStrip(Chars(title), 0 as char)),
                     p + LE(data[p + 4..p + 8])))
  {
    TypedPointerHolds(data, p, expected);
    TypedPointerAfter(data, p, expected);
    var size, skip := LE(data[p + 4..p + 8]), if expected == "IDEF" then 96 else 144;
    var points, lines := LE(data[p + 16..p + 20]), LE(data[p + 20..p + 24]);
    BytesInFile(data, p + 16, 4);
    BytesInFile(data, p + 20, 4);
    assert DefAt(data, p, expected) == DefTitleAt(data, p + 24, size, skip, points, lines);
    DefTitleLayout(data, p, size, skip, points, lines);
  }

  /** A DEF record whose declared size is more than one byte short of its
      fixed part raises on the final skip once its title is read. */
  lemma {:induction false} DefShortSize(data: seq<byte>, p: nat, expected: string)
    requires p + 16 <= |data| && IsAscii(data[p + 8..p + 12])
    requires Chars(data[p + 8..p + 12]) == expected
    requires expected == "IDEF" || expected == "VDEF"
    requires var skip := if expected == "IDEF" then 96 else 144;
      p + 56 + skip <= |data| && LE(data[p + 4..p + 8]) < skip + 55
    ensures var skip := if expected == "IDEF" then 96 else 144;
      var title := data[p + 24 + skip..p + 56 + skip];
      && (IsAscii(title) ==> DefAt(data, p, expected) == Failure(NegativeRead))
      && (!IsAscii(title) ==> DefAt(data, p, expected) == Failure(NotAscii))
  {
    TypedPointerHolds(data, p, expected);
    TypedPointerAfter(data, p, expected);
    var size, skip := LE(data[p + 4..p + 8]), if expected == "IDEF" then 96 else 144;
    var points, lines := LE(data[p + 16..p + 20]), LE(data[p + 20..p + 24]);
    BytesInFile(data, p + 16, 4);
    BytesInFile(data, p + 20, 4);
    assert DefAt(data, p, expected) == DefTitleAt(data, p + 24, size, skip, points, lines);
    BytesInFile(data, p + 24, skip);
    BytesInFile(data, p + 24 + skip, 32);
  }

  lemma DefTitleLayout(data: seq<byte>, p: nat, size: nat, skip: nat, points: nat, lines: nat)
    requires skip + 56 <= size && p + size <= |data|
    ensures var title := data[p + 24 + skip..p + 56 + skip];
      && (DefTitleAt(data, p + 24, size, skip, points, lines).Success? <==> IsAscii(title))
      && (DefTitleAt(data, p + 24, size, skip, points, lines).Success? ==>
            DefTitleAt(data, p + 24, size, skip, points, lines).value ==
              Parsed(Def(points, lines, PyOps.RStrip(Chars(title), 0 as char)), p + size))
  {
    BytesInFile(data, p + 24, skip);
    BytesInFile(data, p + 24 + skip, 32);
    BytesInFile(data, p + 56 + skip, size - 56 - skip);
  }

  /** A TEXT record whose note is all in the file yields `size_note`
      characters, one per byte. */
  lemma {:induction false} TextLayout(data: seq<byte>, loc: nat)
    requires loc + 24 <= |data|
    requires loc + 24 + LE(data[loc + 20..loc + 24]) <= |data|
    ensures TextAt(data, loc).Success? <==> TypedPointerAt(data, loc, "TEXT").Success?
    ensures TextAt(data, loc).Success? ==>
      var n := LE(data[loc + 20..loc + 24]);
      TextAt(data, loc).value == Parsed(Chars(data[loc + 24..loc + 24 + n]), loc + 24 + n)
  {
    TypedPointerAfter(data, loc, "TEXT");
    if TypedPointerAt(data, loc, "TEXT").Success? {
      FieldInFile(data, loc + 16, 4);
      FieldInFile(data, loc + 20, 4);
      BytesInFile(data, loc + 24, LE(data[loc + 20..loc + 24]));
    }
  }

  // ---------------------------------------------------------------------
  // Tables of contents
  // ---------------------------------------------------------------------

  /** The samples one data entry carries: `(sizeEntry - 16) // 4`, and none
      when that is negative (such an entry is never read: see
      `NegativeWordsRaise`). */
  function EntryWords(layout: Layout): nat {
    if layout.DataTable? && layout.words > 0 then layout.words else 0
  }

  /** A payload fits a layout: its kind is the layout's, and a data payload
      has exactly the layout's sample count. */
  predicate Fits(e: Payload, layout: Layout) {
    match layout
    case PointerTable => e.PointerEntry?
    case TextTable => e.TextEntry?
    case LineTable => e.LineEntry?
    case DataTable(_) => e.DataEntry? && |e.words| == EntryWords(layout)
  }

  lemma {:induction false} PayloadFits(data: seq<byte>, p: nat, layout: Layout)
    ensures PayloadAt(data, p, layout).Success? ==> Fits(PayloadAt(data, p, layout).value.value, layout)
  {
    if layout.DataTable? && PayloadAt(data, p, layout).Success? {
      var raw := BytesAt(data, p, 4 * layout.words);
      assert |Words(raw.value)| == |raw.value| / 4;
    }
  }

  /** A table whose entry size is below 16 has a negative sample count,
      and reading any of its entries raises in `read` as soon as its
      pointer is read. */
  lemma NegativeWordsRaise(data: seq<byte>, p: nat, sizeEntry: nat, headerTag: string, acc: Toc)
    ensures LayoutOf(sizeEntry).DataTable? && LayoutOf(sizeEntry).words < 0 <==> sizeEntry < 16
    ensures sizeEntry < 16 ==> PayloadAt(data, p, LayoutOf(sizeEntry)) == Failure(NegativeRead)
    ensures sizeEntry < 16 && PointerAt(data, p).Success? ==>
      EntryAt(data, p, headerTag, LayoutOf(sizeEntry), acc) == Failure(NegativeRead)
  {
  }

  /** The number of whole groups of `w` in `n`. */
  function Groups(n: nat, w: nat): nat
    requires w > 0
  {
    if n < w then 0 else 1 + Groups(n - w, w)
  }

  /** `n` is a whole number of groups of `w`. */
  predicate Whole(n: nat, w: nat)
    requires w > 0
  {
    n == 0 || (n >= w && Whole(n - w, w))
  }

  /** The entries a table holds: one per pointer, text or line entry, and
      one per `EntryWords` samples. */
  function Count(t: Toc): nat {
    var w := EntryWords(LayoutOf(t.sizeEntry));
    |t.pntImag| + |t.pntVolm| + |t.pntNext| + |t.pntNset| + |t.pntThmb| + |t.pntText| + |t.linPointer|
      + (if w > 0 then Groups(|t.data|, w) else 0)
  }

  /** The shape every decoded table has: the lists filled together have
      equal lengths, only the lists of the table's layout are filled, and
      the samples are whole entries. */
  predicate WellShaped(t: Toc) {
    var layout := LayoutOf(t.sizeEntry);
    && |t.idxText| == |t.pntText|
    && |t.pntCounter| == |t.linPointer| && |t.linCounter| == |t.linPointer|
    && (layout != PointerTable ==>
          t.pntImag == [] && t.pntVolm == [] && t.pntNext == [] && t.pntNset == [] && t.pntThmb == [])
    && (layout != TextTable ==> t.pntText == [])
    && (layout != LineTable ==> t.linPointer == [])
    && (!layout.DataTable? ==> t.data == [])
    && (EntryWords(layout) == 0 ==> t.data == [])
    && (EntryWords(layout) > 0 ==> Whole(|t.data|, EntryWords(layout)))
  }

  /** The zero tag ends the table exactly when the table's header tag is
      neither IBOX nor VTOC; and no other tag ends it. */
  lemma StopRule(t: Toc, headerTag: string, tag: string, e: Payload)
    ensures AddEntry(t, headerTag, tag, e) == Success(Stop) <==>
      tag == NullTag && headerTag != "IBOX" && headerTag != "VTOC"
    ensures tag == NullTag && headerTag == "IBOX" ==> AddEntry(t, headerTag, tag, e) == AddData(t, e)
    ensures tag == NullTag && headerTag == "VTOC" ==> AddEntry(t, headerTag, tag, e) == AddLine(t, e)
  {
  }

  /** Tags other than the table entries' and the zero tag are refused by name. */
  lemma UnknownTagRule(t: Toc, headerTag: string, tag: string, e: Payload)
    ensures AddEntry(t, headerTag, tag, e) == Failure(NotRecognized(tag)) <==>
      TagOf(tag) == Unknown
  {
  }

  /** One accepted entry keeps a table well shaped and adds at most one
      entry to it (none for a data entry of no samples). */
  lemma {:induction false} AddEntryShape(t: Toc, headerTag: string, tag: string, e: Payload)
    requires WellShaped(t) && Fits(e, LayoutOf(t.sizeEntry))
    requires AddEntry(t, headerTag, tag, e).Success? && AddEntry(t, headerTag, tag, e).value.Continue?
    ensures var u := AddEntry(t, headerTag, tag, e).value.toc;
      && WellShaped(u) && Count(u) <= Count(t) + 1
      && u.sizeTable == t.sizeTable && u.numbEntry == t.numbEntry && u.sizeEntry == t.sizeEntry
  {
    var u := AddEntry(t, headerTag, tag, e).value.toc;
    var w := EntryWords(LayoutOf(t.sizeEntry));
    if e.DataEntry? {
      assert u == t.(data := t.data + e.words);
      if w > 0 {
        assert |u.data| == |t.data| + w;
        assert Groups(|u.data|, w) == Groups(|t.data|, w) + 1;
      }
    } else if e.LineEntry? {
      assert u == t.(pntCounter := t.pntCounter + [e.pntCount], linCounter := t.linCounter + [e.linCount],
                     linPointer := t.linPointer + [e.linPointer]);
    } else if e.TextEntry? {
      assert u == t.(idxText := t.idxText + [e.index], pntText := t.pntText + [e.pointer]);
    } else {
      assert TagOf(tag) in {Imag, Volm, Next, Nset, Thmb};
    }
  }

  /** `u` is `acc` after at most `k` more entries: still well shaped, with
      the same header counts. */
  predicate Extends(acc: Toc, u: Toc, k: nat) {
    && WellShaped(u) && Count(u) <= Count(acc) + k
    && u.sizeTable == acc.sizeTable && u.numbEntry == acc.numbEntry && u.sizeEntry == acc.sizeEntry
  }

  /** One entry read from the file keeps the table well shaped. */
  lemma {:induction false} EntryShape(data: seq<byte>, p: nat, headerTag: string, acc: Toc)
    requires WellShaped(acc)
    ensures var step := EntryAt(data, p, headerTag, LayoutOf(acc.sizeEntry), acc);
      step.Success? && step.value.value.Continue? ==> Extends(acc, step.value.value.toc, 1)
  {
    var layout := LayoutOf(acc.sizeEntry);
    var step := EntryAt(data, p, headerTag, layout, acc);
    if step.Success? && step.value.value.Continue? {
      var entry := PointerAt(data, p).value;
      var payload := PayloadAt(data, entry.after, layout).value;
      PayloadFits(data, entry.after, layout);
      AddEntryShape(acc, headerTag, entry.value.tag, payload.value);
    }
  }

  /** The entry loop keeps the table well shaped and reads no more entries
      than it was allowed. */
  lemma {:induction false} EntriesShape(data: seq<byte>, p: nat, remaining: nat, headerTag: string, acc: Toc)
    requires WellShaped(acc)
    ensures var r := EntriesFrom(data, p, remaining, headerTag, LayoutOf(acc.sizeEntry), acc);
      r.Success? ==> Extends(acc, r.value.value, remaining)
    decreases remaining, 1
  {
    var layout := LayoutOf(acc.sizeEntry);
    if remaining > 0 {
      var step := EntryAt(data, p, headerTag, layout, acc);
      EntriesStep(data, p, remaining, headerTag, layout, acc);
      if step.Success? {
        AfterStep(data, step.value.value, step.value.after, remaining - 1, headerTag, layout, acc);
        if step.value.value.Continue? {
          EntryShape(data, p, headerTag, acc);
          RestShape(data, step.value.after, remaining, headerTag, acc, step.value.value.toc);
        } else {
          ExtendsSelf(acc, remaining);
        }
      }
    }
  }

  /** The entries after the first one extend the table by at most one
      fewer. */
  lemma {:induction false} RestShape(data: seq<byte>, q: nat, remaining: nat, headerTag: string, acc: Toc, u: Toc)
    requires remaining > 0 && Extends(acc, u, 1)
    ensures var r := EntriesFrom(data, q, remaining - 1, headerTag, LayoutOf(acc.sizeEntry), u);
      r.Success? ==> Extends(acc, r.value.value, remaining)
    decreases remaining, 0
  {
    assert u.sizeEntry == acc.sizeEntry && WellShaped(u);
    EntriesShape(data, q, remaining - 1, headerTag, u);
    ExtendsChain(acc, u, EntriesFrom(data, q, remaining - 1, headerTag, LayoutOf(u.sizeEntry), u), remaining - 1);
  }

  lemma ExtendsSelf(acc: Toc, k: nat)
    requires WellShaped(acc)
    ensures Extends(acc, acc, k)
  {
  }

  lemma ExtendsChain(acc: Toc, u: Toc, r: Result<Parsed<Toc>, Error>, k: nat)
    requires Extends(acc, u, 1) && (r.Success? ==> Extends(u, r.value.value, k))
    ensures r.Success? ==> Extends(acc, r.value.value, k + 1)
  {
  }

  /** Every table the reader returns is well shaped, holds at most
      `numbEntry` entries, and carries the header's three counts. */
  lemma {:induction false} TocShape(data: seq<byte>, p: nat, expected: string)
    ensures TocAt(data, p, expected).Success? ==>
      var t := TocAt(data, p, expected).value.value;
      WellShaped(t) && Count(t) <= t.numbEntry &&
      t.sizeTable == LE(data[p + 16..p + 24]) && t.numbEntry == LE(data[p + 24..p + 28]) &&
      t.sizeEntry == LE(data[p + 28..p + 32])
  {
    if TocAt(data, p, expected).Success? {
      PointerLayout(data, p);
      var hdr := TypedPointerAt(data, p, expected).value;
      var sizeTable := UnpackAt(data, p + 16, 8).value;
      var numbEntry := UnpackAt(data, p + 24, 4).value;
      var sizeEntry := UnpackAt(data, p + 28, 4).value;
      var acc := EmptyToc(sizeTable.value, numbEntry.value, sizeEntry.value);
      EntriesShape(data, p + 32, numbEntry.value, hdr.value.tag, acc);
    }
  }
}
