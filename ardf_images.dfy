/** The image part of `read_ardf_metadata`: for every image its table of
    contents, text table and IDEF record, the IBOX samples reshaped into one
    plane of the image stack, the closing GAMI record, and the image texts,
    which are split into the thumb, image and quick notes. */
module ArdfImages {
  import opened Wrappers
  import opened Bytes
  import opened Errors
  import opened Stream
  import opened UtilsArdf
  import opened Notes
  import PyOps

  // ---------------------------------------------------------------------
  // Reshaping and stacking
  // ---------------------------------------------------------------------

  type Matrix = seq<seq<Word>>

  /** `np.array(ws).reshape((lines, points))`, row by row. */
  function Reshape(ws: seq<Word>, lines: nat, points: nat): Result<Matrix, Error>
    decreases lines
  {
    if lines == 0 then (if ws == [] then Success([]) else Failure(BadShape))
    else if |ws| < points then Failure(BadShape)
    else
      var rest :- Reshape(ws[points..], lines - 1, points);
      Success([ws[..points]] + rest)
  }

  /** A `lines` × `points` matrix. */
  predicate Shaped<T>(m: seq<seq<T>>, lines: nat, points: nat) {
    |m| == lines && forall i :: 0 <= i < |m| ==> |m[i]| == points
  }

  /** The rows laid end to end: the array's flat, row-major contents. */
  function Flatten<T>(m: seq<seq<T>>): seq<T> {
    if m == [] then [] else m[0] + Flatten(m[1..])
  }

  lemma {:induction false} FlattenLength<T>(m: seq<seq<T>>, lines: nat, points: nat)
    requires Shaped(m, lines, points)
    ensures |Flatten(m)| == lines * points
  {
    if lines > 0 {
      FlattenLength(m[1..], lines - 1, points);
      assert lines * points == (lines - 1) * points + points;
    }
  }

  /** Element `(i, j)` sits at `i * points + j` of the flat contents. */
  lemma {:induction false} FlattenIndex<T>(m: seq<seq<T>>, lines: nat, points: nat, i: nat, j: nat)
    requires Shaped(m, lines, points) && i < lines && j < points
    ensures i * points + j < |Flatten(m)| && Flatten(m)[i * points + j] == m[i][j]
    decreases i
  {
    FlattenLength(m, lines, points);
    FlattenLength(m[1..], lines - 1, points);
    if i > 0 {
      FlattenIndex(m[1..], lines - 1, points, i - 1, j);
      assert i * points + j == points + ((i - 1) * points + j);
    }
  }

  /** Reshaping succeeds exactly when the sizes match, and then yields the
      `lines` × `points` matrix whose rows, laid end to end, are the samples. */
  lemma {:induction false} ReshapeMeaning(ws: seq<Word>, lines: nat, points: nat)
    ensures Reshape(ws, lines, points).Success? <==> |ws| == lines * points
    ensures Reshape(ws, lines, points).Success? ==>
      var m := Reshape(ws, lines, points).value;
      Shaped(m, lines, points) && Flatten(m) == ws
    decreases lines
  {
    if lines > 0 {
      var below: nat := (lines - 1) * points;
      assert lines * points == below + points;
      if |ws| >= points {
        var rest := Reshape(ws[points..], lines - 1, points);
        ReshapeMeaning(ws[points..], lines - 1, points);
        if rest.Success? {
          var m := [ws[..points]] + rest.value;
          assert Reshape(ws, lines, points) == Success(m);
          assert m[1..] == rest.value;
          assert Flatten(m) == ws[..points] + ws[points..];
        }
      }
    }
  }

  /** Reshaping a well-shaped matrix's flat contents gives the matrix back. */
  lemma {:induction false} ReshapeFlatten(m: Matrix, lines: nat, points: nat)
    requires Shaped(m, lines, points)
    ensures Reshape(Flatten(m), lines, points) == Success(m)
    decreases lines
  {
    if lines > 0 {
      var f := Flatten(m);
      FlattenLength(m[1..], lines - 1, points);
      assert f[..points] == m[0] && f[points..] == Flatten(m[1..]);
      ReshapeFlatten(m[1..], lines - 1, points);
      assert [m[0]] + m[1..] == m;
    }
  }

  /** `D['y']`: the empty list before any image, then a `lines` × `points`
      × planes array, kept as its planes. */
  datatype Stack = NoImages | Stack(lines: nat, points: nat, planes: seq<Matrix>)

  predicate WellShaped(y: Stack) {
    y.Stack? ==> forall n :: 0 <= n < |y.planes| ==> Shaped(y.planes[n], y.lines, y.points)
  }

  /** One more plane: while `len(D['y']) == 0` (no image yet, or a stack of
      zero lines) the new image replaces the stack; otherwise it is
      concatenated along axis 2, which needs equal line and point counts. */
  function Push(y: Stack, lines: nat, points: nat, plane: Matrix): Result<Stack, Error> {
    if y.NoImages? || y.lines == 0 then Success(Stack(lines, points, [plane]))
    else if y.lines == lines && y.points == points then Success(Stack(lines, points, y.planes + [plane]))
    else Failure(BadShape)
  }

  /** Stacking fails only on a shape mismatch with a non-empty stack, keeps
      the stack well shaped, and puts the new plane last; earlier planes
      survive unless the stack had no lines. */
  lemma PushMeaning(y: Stack, lines: nat, points: nat, plane: Matrix)
    requires WellShaped(y) && Shaped(plane, lines, points)
    ensures Push(y, lines, points, plane).Failure? <==>
      y.Stack? && y.lines > 0 && (y.lines != lines || y.points != points)
    ensures Push(y, lines, points, plane).Success? ==>
      var z := Push(y, lines, points, plane).value;
      && z.Stack? && WellShaped(z) && z.lines == lines && z.points == points
      && |z.planes| > 0 && z.planes[|z.planes| - 1] == plane
      && (y.Stack? && y.lines > 0 ==> z.planes[..|z.planes| - 1] == y.planes)
      && (y.NoImages? || y.lines == 0 ==> z.planes == [plane])
  {
    if y.Stack? && y.lines > 0 && y.lines == lines && y.points == points {
      var z := Push(y, lines, points, plane).value;
      assert z.planes[..|z.planes| - 1] == y.planes;
    }
  }

  // ---------------------------------------------------------------------
  // Image texts
  // ---------------------------------------------------------------------

  /** What `the_note` becomes: `[` and `]` are removed, but only when `[` occurs. */
  function StripBrackets(s: string): (r: string)
    ensures '[' !in r
    ensures '[' !in s ==> r == s
  {
    if '[' in s then PyOps.RemoveChar(PyOps.RemoveChar(s, '['), ']') else s
  }

  /** A note with a `[` loses every `[` and `]`; every other character stays
      as often as it occurs in `s` (and, by `PyOps.RemoveCharAppend`, in its
      order). */
  lemma StripBracketsMeaning(s: string)
    ensures '[' !in StripBrackets(s)
    ensures '[' in s ==> ']' !in StripBrackets(s)
    ensures '[' !in s ==> StripBrackets(s) == s
    ensures forall x :: x != '[' && x != ']' ==> multiset(StripBrackets(s))[x] == multiset(s)[x]
  {
    if '[' in s {
      PyOps.RemoveCharCounts(s, '[');
      PyOps.RemoveCharCounts(PyOps.RemoveChar(s, '['), ']');
    }
  }

  /** The notes the image loop keeps: the current image's parsed note
      (`F[imag]['note']`) and the thumb and quick notes, which are locals
      of the whole reader and so carry over from image to image. */
  datatype NoteState = NoteState(note: Option<map<string, string>>, thumb: Option<string>,
                                 quick: Option<string>)

  datatype Role = ThumbNote | ImageNote | QuickNote | NoRole

  /** The role of text `r` of image `n`, which has `count` texts. */
  function RoleOf(count: nat, n: nat, r: nat): (role: Role)
    ensures count > 1 || n == 0 ==>
      role == (if r == 0 then ThumbNote else if r == 1 then ImageNote else if r == 2 then QuickNote else NoRole)
    ensures count <= 1 && n != 0 ==> role == ImageNote
  {
    if count > 1 || n == 0 then
      if r == 0 then ThumbNote else if r == 1 then ImageNote else if r == 2 then QuickNote else NoRole
    else ImageNote
  }

  function Assign(st: NoteState, role: Role, text: string): NoteState {
    match role
    case ThumbNote => st.(thumb := Some(text))
    case ImageNote => st.(note := Some(NotesOf(text)))
    case QuickNote => st.(quick := Some(text))
    case NoRole => st
  }

  /** The texts of image `n` from the `r`-th on, each read at its absolute
      pointer. */
  function TextsFrom(data: seq<byte>, pos: nat, pnts: seq<nat>, n: nat, r: nat, st: NoteState)
    : Result<Parsed<NoteState>, Error>
    decreases |pnts| - r, 2
  {
    if r >= |pnts| then Success(Parsed(st, pos))
    else TextThen(data, pnts, n, r, st)
  }

  /** Text `r` read, then the texts after it. */
  function TextThen(data: seq<byte>, pnts: seq<nat>, n: nat, r: nat, st: NoteState)
    : Result<Parsed<NoteState>, Error>
    requires r < |pnts|
    decreases |pnts| - r, 1
  {
    TextsAfter(data, TextAt(data, pnts[r]), pnts, n, r, st)
  }

  function TextsAfter(data: seq<byte>, text: Result<Parsed<string>, Error>, pnts: seq<nat>, n: nat, r: nat,
                      st: NoteState): Result<Parsed<NoteState>, Error>
    requires r < |pnts|
    decreases |pnts| - r, 0
  {
    var t :- text;
    TextsFrom(data, t.after, pnts, n, r + 1, Assign(st, RoleOf(|pnts|, n, r), StripBrackets(t.value)))
  }

  lemma TextsStep(data: seq<byte>, pos: nat, pnts: seq<nat>, n: nat, r: nat, st: NoteState)
    requires r < |pnts|
    ensures TextsFrom(data, pos, pnts, n, r, st) ==
      match TextAt(data, pnts[r])
      case Failure(e) => Failure(e)
      case Success(t) =>
        TextsFrom(data, t.after, pnts, n, r + 1, Assign(st, RoleOf(|pnts|, n, r), StripBrackets(t.value)))
  {
    assert TextsFrom(data, pos, pnts, n, r, st) == TextThen(data, pnts, n, r, st);
  }

  /** One text read successfully: the loop goes on after it. */
  lemma TextsNext(data: seq<byte>, pos: nat, pnts: seq<nat>, n: nat, r: nat, st: NoteState, t: Parsed<string>)
    requires r < |pnts| && TextAt(data, pnts[r]) == Success(t)
    ensures TextsFrom(data, pos, pnts, n, r, st) ==
      TextsFrom(data, t.after, pnts, n, r + 1, Assign(st, RoleOf(|pnts|, n, r), StripBrackets(t.value)))
  {
    assert TextsFrom(data, pos, pnts, n, r, st) == TextThen(data, pnts, n, r, st);
  }

  /** The cleaned text at pointer `r`. */
  function TextOf(data: seq<byte>, pnts: seq<nat>, r: nat): Result<string, Error>
    requires r < |pnts|
  {
    var t :- TextAt(data, pnts[r]);
    Success(StripBrackets(t.value))
  }

  /** Which text plays which role, stated on the whole loop: with several
      texts (or for the first image) text 0 becomes the thumb note, text 1
      the parsed image note and text 2 the quick note; a single text of a
      later image is the parsed image note and leaves the thumb and quick
      notes as they were. */
  lemma {:induction false} TextRoles(data: seq<byte>, pos: nat, pnts: seq<nat>, n: nat, st: NoteState)
    requires TextsFrom(data, pos, pnts, n, 0, st).Success?
    ensures var out := TextsFrom(data, pos, pnts, n, 0, st).value.value;
      && (|pnts| > 0 ==> TextOf(data, pnts, 0).Success?)
      && (|pnts| > 1 ==> TextOf(data, pnts, 1).Success?)
      && (|pnts| > 2 ==> TextOf(data, pnts, 2).Success?)
      && (|pnts| == 0 ==> out == st)
      && (|pnts| > 1 || (|pnts| == 1 && n == 0) ==>
            && out.thumb == Some(TextOf(data, pnts, 0).value)
            && (|pnts| > 1 ==> out.note == Some(NotesOf(TextOf(data, pnts, 1).value)))
            && (|pnts| <= 1 ==> out.note == st.note)
            && (|pnts| > 2 ==> out.quick == Some(TextOf(data, pnts, 2).value))
            && (|pnts| <= 2 ==> out.quick == st.quick))
      && (|pnts| == 1 && n != 0 ==>
            out == st.(note := Some(NotesOf(TextOf(data, pnts, 0).value))))
  {
    var m := |pnts|;
    var out := TextsFrom(data, pos, pnts, n, 0, st).value.value;
    if m > 0 {
      TextsStep(data, pos, pnts, n, 0, st);
      var t0 := TextAt(data, pnts[0]).value;
      var s1 := Assign(st, RoleOf(m, n, 0), StripBrackets(t0.value));
      TextsNext(data, pos, pnts, n, 0, st, t0);
      assert TextOf(data, pnts, 0) == Success(StripBrackets(t0.value));
      if m > 1 {
        assert s1 == st.(thumb := Some(StripBrackets(t0.value)));
        TextsStep(data, t0.after, pnts, n, 1, s1);
        var t1 := TextAt(data, pnts[1]).value;
        var s2 := s1.(note := Some(NotesOf(StripBrackets(t1.value))));
        TextsNext(data, t0.after, pnts, n, 1, s1, t1);
        assert TextOf(data, pnts, 1) == Success(StripBrackets(t1.value));
        if m > 2 {
          TextsStep(data, t1.after, pnts, n, 2, s2);
          var t2 := TextAt(data, pnts[2]).value;
          var s3 := s2.(quick := Some(StripBrackets(t2.value)));
          TextsNext(data, t1.after, pnts, n, 2, s2, t2);
          assert TextOf(data, pnts, 2) == Success(StripBrackets(t2.value));
          TextsPastRoles(data, t2.after, pnts, n, 3, s3);
          assert out == s3;
        } else {
          assert out == s2;
        }
      } else {
        assert out == s1;
      }
    }
  }

  /** The text a successful loop reads at pointer `r`, and the loop after it. */
  lemma TextsGoOn(data: seq<byte>, pos: nat, pnts: seq<nat>, n: nat, r: nat, st: NoteState)
    returns (t: Parsed<string>)
    requires r < |pnts| && TextsFrom(data, pos, pnts, n, r, st).Success?
    ensures TextsFrom(data, pos, pnts, n, r, st) ==
      TextsFrom(data, t.after, pnts, n, r + 1, Assign(st, RoleOf(|pnts|, n, r), StripBrackets(t.value)))
  {
    TextsStep(data, pos, pnts, n, r, st);
    t := TextAt(data, pnts[r]).value;
    TextsNext(data, pos, pnts, n, r, st, t);
  }

  /** A text that plays no role is read and leaves the state alone. */
  lemma TextSkipped(data: seq<byte>, pos: nat, pnts: seq<nat>, n: nat, r: nat, st: NoteState)
    returns (t: Parsed<string>)
    requires r < |pnts| && r >= 3 && TextsFrom(data, pos, pnts, n, r, st).Success?
    ensures TextsFrom(data, pos, pnts, n, r, st) == TextsFrom(data, t.after, pnts, n, r + 1, st)
  {
    t := TextsGoOn(data, pos, pnts, n, r, st);
    assert RoleOf(|pnts|, n, r) == NoRole;
  }

  /** Past the third text, texts play no role: reading them changes nothing. */
  lemma {:induction false} TextsPastRoles(data: seq<byte>, pos: nat, pnts: seq<nat>, n: nat, r: nat, st: NoteState)
    requires r >= 3
    requires TextsFrom(data, pos, pnts, n, r, st).Success?
    ensures TextsFrom(data, pos, pnts, n, r, st).value.value == st
    decreases |pnts| - r
  {
    if r < |pnts| {
      var t := TextSkipped(data, pos, pnts, n, r, st);
      TextsPastRoles(data, t.after, pnts, n, r + 1, st);
    }
  }

  /** The thumb note is set whenever the quick note is: both come from the
      same image, a quick note only with at least three texts. */
  predicate QuickHasThumb(st: NoteState) {
    st.quick.Some? ==> st.thumb.Some?
  }

  lemma {:induction false} TextsKeepQuickHasThumb(data: seq<byte>, pos: nat, pnts: seq<nat>, n: nat, st: NoteState)
    requires QuickHasThumb(st)
    requires TextsFrom(data, pos, pnts, n, 0, st).Success?
    ensures QuickHasThumb(TextsFrom(data, pos, pnts, n, 0, st).value.value)
  {
    TextRoles(data, pos, pnts, n, st);
  }

  method ReadImageTexts(fid: Cursor, pnts: seq<nat>, n: nat, st0: NoteState) returns (r: Result<NoteState, Error>)
    modifies fid
    ensures Agrees(r, TextsFrom(fid.data, old(fid.pos), pnts, n, 0, st0), fid.pos)
  {
    ghost var spec := TextsFrom(fid.data, fid.pos, pnts, n, 0, st0);
    var st := st0;
    var numbImagText := |pnts|;
    for k := 0 to numbImagText
      invariant spec == TextsFrom(fid.data, fid.pos, pnts, n, k, st)
    {
      TextsStep(fid.data, fid.pos, pnts, n, k, st);
      var theNote :- ReadText(fid, pnts[k]);
      if '[' in theNote {
        theNote := PyOps.RemoveChar(PyOps.RemoveChar(theNote, '['), ']');
      }
      if numbImagText > 1 || n == 0 {
        if k == 0 {
          st := st.(thumb := Some(theNote));
        } else if k == 1 {
          var parsed := ParseNotes(theNote);
          st := st.(note := Some(parsed));
        } else if k == 2 {
          st := st.(quick := Some(theNote));
        }
      } else {
        var parsed := ParseNotes(theNote);
        st := st.(note := Some(parsed));
      }
    }
    return Success(st);
  }

  // ---------------------------------------------------------------------
  // One image
  // ---------------------------------------------------------------------

  /** `F['imag<n>']`: the image's table, text table, definition and note. */
  datatype Image = Image(toc: Toc, ttoc: Toc, idef: Def, note: Option<map<string, string>>)

  /** What the image loop builds: `F['imag<n>']`, `D['imageList']`,
      `D['y']` and the thumb and quick notes. */
  datatype Images = Images(images: seq<Image>, titles: seq<string>, y: Stack,
                           thumb: Option<string>, quick: Option<string>)

  const NoImage: Images := Images([], [], NoImages, None, None)

  /** The three records at the start of an image or a volume whose table
      is at `pnt`: that table (tagged IMAG or VOLM), the text table right
      after it, and the definition record (IDEF or VDEF) right after the
      text table. */
  datatype Head = Head(toc: Toc, ttoc: Toc, definition: Def)

  function HeadAt(data: seq<byte>, pnt: nat, tocTag: string, defTag: string): Result<Parsed<Head>, Error> {
    var toc :- TocAt(data, pnt, tocTag);
    var rest :- DefsAt(data, pnt, toc.value.sizeTable, defTag);
    Success(Parsed(Head(toc.value, rest.value.0, rest.value.1), rest.after))
  }

  /** The text table `size` bytes past `pnt` and the definition after it. */
  function DefsAt(data: seq<byte>, pnt: nat, size: nat, defTag: string): Result<Parsed<(Toc, Def)>, Error> {
    var ttoc :- TocAt(data, pnt + size, "TTOC");
    DefAfter(data, pnt + size, ttoc.value, defTag)
  }

  /** The definition record right after the text table `ttoc` at `loc`. */
  function DefAfter(data: seq<byte>, loc: nat, ttoc: Toc, defTag: string): Result<Parsed<(Toc, Def)>, Error> {
    var def :- DefAt(data, loc + ttoc.sizeTable, defTag);
    Success(Parsed((ttoc, def.value), def.after))
  }

  method ReadHead(fid: Cursor, pnt: nat, tocTag: string, defTag: string) returns (r: Result<Head, Error>)
    modifies fid
    ensures Agrees(r, HeadAt(fid.data, pnt, tocTag, defTag), fid.pos)
  {
    TocFromAt(fid.data, fid.pos, pnt, tocTag);
    var toc :- ReadToc(fid, pnt, tocTag);
    var rest :- ReadDefs(fid, pnt, toc.sizeTable, defTag);
    return Success(Head(toc, rest.0, rest.1));
  }

  method ReadDefs(fid: Cursor, pnt: nat, size: nat, defTag: string) returns (r: Result<(Toc, Def), Error>)
    modifies fid
    ensures Agrees(r, DefsAt(fid.data, pnt, size, defTag), fid.pos)
  {
    var locTtoc := pnt + size;
    TocFromAt(fid.data, fid.pos, locTtoc, "TTOC");
    var ttoc :- ReadToc(fid, locTtoc, "TTOC");
    ghost var next := DefAfter(fid.data, locTtoc, ttoc, defTag);
    assert DefsAt(fid.data, pnt, size, defTag) == next;
    var locDef := pnt + size + ttoc.sizeTable;
    DefFromAt(fid.data, fid.pos, locDef, defTag);
    var def :- ReadDef(fid, locDef, defTag);
    return Success((ttoc, def));
  }

  /** The IBOX table that follows the IDEF: its samples, reshaped to the
      IDEF's lines × points, are stacked onto `y`; a GAMI record closes
      the image. */
  function PlaneAt(data: seq<byte>, pos: nat, idef: Def, y: Stack): Result<Parsed<Stack>, Error> {
    var idat :- TocFrom(data, pos, -1, "IBOX");
    var words :- DataWords(idat.value);
    var plane :- Reshape(words, idef.lines, idef.points);
    var z :- Push(y, idef.lines, idef.points, plane);
    var gami :- PointerFrom(data, idat.after, -1);
    :- CheckType(gami.value.tag, "GAMI", gami.after);
    Success(Parsed(z, gami.after))
  }

  /** After an image the stack has that image's shape and one more plane,
      unless it had no lines before, in which case the image starts it anew. */
  lemma PlaneMeaning(data: seq<byte>, pos: nat, idef: Def, y: Stack)
    requires WellShaped(y)
    requires PlaneAt(data, pos, idef, y).Success?
    ensures var z := PlaneAt(data, pos, idef, y).value.value;
      && z.Stack? && WellShaped(z) && z.lines == idef.lines && z.points == idef.points
      && (y.Stack? && y.lines > 0 ==> z.planes[..|z.planes| - 1] == y.planes)
      && (y.NoImages? || y.lines == 0 ==> |z.planes| == 1)
  {
    var idat := TocFrom(data, pos, -1, "IBOX").value;
    var words := DataWords(idat.value).value;
    ReshapeMeaning(words, idef.lines, idef.points);
    PushMeaning(y, idef.lines, idef.points, Reshape(words, idef.lines, idef.points).value);
  }

  method ReadPlane(fid: Cursor, idef: Def, y: Stack) returns (r: Result<Stack, Error>)
    modifies fid
    ensures Agrees(r, PlaneAt(fid.data, old(fid.pos), idef, y), fid.pos)
  {
    var idat :- ReadToc(fid, -1, "IBOX");
    var imageData :- DataWords(idat);
    var plane :- Reshape(imageData, idef.lines, idef.points);
    var z :- Push(y, idef.lines, idef.points, plane);
    var gami :- ReadArdfPointer(fid, -1);
    :- CheckType(gami.tag, "GAMI", fid.pos);
    return Success(z);
  }

  /** What follows an image's IDEF: its plane of the stack and its texts. */
  function BodyAt(data: seq<byte>, pos: nat, h: Head, n: nat, acc: Images)
    : Result<Parsed<(Stack, NoteState)>, Error>
  {
    var z :- PlaneAt(data, pos, h.definition, acc.y);
    var pnts :- TextPointers(h.ttoc);
    var notes :- TextsFrom(data, z.after, pnts, n, 0, NoteState(None, acc.thumb, acc.quick));
    Success(Parsed((z.value, notes.value), notes.after))
  }

  method ReadBody(fid: Cursor, h: Head, n: nat, acc: Images) returns (r: Result<(Stack, NoteState), Error>)
    modifies fid
    ensures Agrees(r, BodyAt(fid.data, old(fid.pos), h, n, acc), fid.pos)
  {
    var y :- ReadPlane(fid, h.definition, acc.y);
    var pnts :- TextPointers(h.ttoc);
    var notes :- ReadImageTexts(fid, pnts, n, NoteState(None, acc.thumb, acc.quick));
    return Success((y, notes));
  }

  /** The loop state after an image with records `h`, the new stack `y`
      and the notes `notes`. */
  function Record(acc: Images, h: Head, y: Stack, notes: NoteState): Images {
    Images(acc.images + [Image(h.toc, h.ttoc, h.definition, notes.note)], acc.titles + [h.definition.title],
           y, notes.thumb, notes.quick)
  }

  /** Image `n`, whose IMAG table is at `pnt`. Every record of an image is
      reached from the absolute pointer, so where the cursor stood before
      does not matter. */
  function ImageAt(data: seq<byte>, pnt: nat, n: nat, acc: Images): Result<Parsed<Images>, Error> {
    var h :- HeadAt(data, pnt, "IMAG", "IDEF");
    var b :- BodyAt(data, h.after, h.value, n, acc);
    Success(Parsed(Record(acc, h.value, b.value.0, b.value.1), b.after))
  }

  method ReadImage(fid: Cursor, pnt: nat, n: nat, acc: Images) returns (r: Result<Images, Error>)
    modifies fid
    ensures Agrees(r, ImageAt(fid.data, pnt, n, acc), fid.pos)
  {
    var h :- ReadHead(fid, pnt, "IMAG", "IDEF");
    var b :- ReadBody(fid, h, n, acc);
    return Success(Record(acc, h, b.0, b.1));
  }

  /** The images from the `k`-th on. */
  function ImagesFrom(data: seq<byte>, pos: nat, pnts: seq<nat>, k: nat, acc: Images): Result<Parsed<Images>, Error>
    decreases |pnts| - k
  {
    if k >= |pnts| then Success(Parsed(acc, pos))
    else
      var a :- ImageAt(data, pnts[k], k, acc);
      ImagesFrom(data, a.after, pnts, k + 1, a.value)
  }

  lemma ImagesStep(data: seq<byte>, pos: nat, pnts: seq<nat>, k: nat, acc: Images)
    requires k < |pnts|
    ensures ImagesFrom(data, pos, pnts, k, acc) ==
      match ImageAt(data, pnts[k], k, acc)
      case Failure(e) => Failure(e)
      case Success(a) => ImagesFrom(data, a.after, pnts, k + 1, a.value)
  {
  }

  method ReadImages(fid: Cursor, pnts: seq<nat>) returns (r: Result<Images, Error>)
    modifies fid
    ensures Agrees(r, ImagesFrom(fid.data, old(fid.pos), pnts, 0, NoImage), fid.pos)
  {
    ghost var spec := ImagesFrom(fid.data, fid.pos, pnts, 0, NoImage);
    var acc := NoImage;
    for n := 0 to |pnts|
      invariant spec == ImagesFrom(fid.data, fid.pos, pnts, n, acc)
    {
      acc :- ReadImage(fid, pnts[n], n, acc);
    }
    return Success(acc);
  }

  /** The state the image loop keeps: one entry per image read, its IDEF
      title in `imageList`, a well-shaped stack that exists once an image
      has been read, and a thumb note whenever there is a quick note. */
  predicate Consistent(acc: Images) {
    && |acc.titles| == |acc.images|
    && (forall k :: 0 <= k < |acc.images| ==> acc.titles[k] == acc.images[k].idef.title)
    && WellShaped(acc.y)
    && (acc.y.NoImages? <==> acc.images == [])
    && QuickHasThumb(NoteState(None, acc.thumb, acc.quick))
  }

  /** The image record the loop appended for pointer `pnt`: the IMAG table
      at `pnt`, the text table right after it and the IDEF right after that. */
  predicate ReadAt(data: seq<byte>, pnt: nat, im: Image) {
    var h := HeadAt(data, pnt, "IMAG", "IDEF");
    h.Success? && h.value.value == Head(im.toc, im.ttoc, im.idef)
  }

  /** One image appends exactly one image record, read where the pointer
      says, and its IDEF title. */
  lemma ImageRecorded(data: seq<byte>, pnt: nat, n: nat, acc: Images)
    requires ImageAt(data, pnt, n, acc).Success?
    ensures var out := ImageAt(data, pnt, n, acc).value.value;
      && |out.images| == |acc.images| + 1
      && out.images[..|acc.images|] == acc.images
      && out.titles == acc.titles + [out.images[|acc.images|].idef.title]
      && ReadAt(data, pnt, out.images[|acc.images|])
  {
    var out := ImageAt(data, pnt, n, acc).value.value;
    assert out.images[..|acc.images|] == acc.images;
  }

  /** One image keeps the loop state consistent and gives the stack that
      image's shape. */
  lemma {:induction false} ImageKeeps(data: seq<byte>, pnt: nat, n: nat, acc: Images)
    requires Consistent(acc)
    requires ImageAt(data, pnt, n, acc).Success?
    ensures var out := ImageAt(data, pnt, n, acc).value.value;
      && Consistent(out)
      && out.y.lines == out.images[|acc.images|].idef.lines
      && out.y.points == out.images[|acc.images|].idef.points
  {
    var h := HeadAt(data, pnt, "IMAG", "IDEF").value;
    assert BodyAt(data, h.after, h.value, n, acc).Success?;
    PlaneMeaning(data, h.after, h.value.definition, acc.y);
    var z := PlaneAt(data, h.after, h.value.definition, acc.y).value;
    var pnts := TextPointers(h.value.ttoc).value;
    TextsKeepQuickHasThumb(data, z.after, pnts, n, NoteState(None, acc.thumb, acc.quick));
  }

  /** The whole image loop: one record and one title per IMAG pointer, in
      file order, each read where its pointer says. */
  lemma {:induction false} ImagesMeaning(data: seq<byte>, pos: nat, pnts: seq<nat>, k: nat, acc: Images)
    requires k <= |pnts| && |acc.images| == k && Consistent(acc)
    requires ImagesFrom(data, pos, pnts, k, acc).Success?
    ensures var out := ImagesFrom(data, pos, pnts, k, acc).value.value;
      && Consistent(out)
      && |out.images| == |pnts|
      && out.images[..k] == acc.images
      && forall j :: k <= j < |pnts| ==> ReadAt(data, pnts[j], out.images[j])
    decreases |pnts| - k
  {
    if k < |pnts| {
      ImagesStep(data, pos, pnts, k, acc);
      var a := ImageAt(data, pnts[k], k, acc).value;
      ImageRecorded(data, pnts[k], k, acc);
      ImageKeeps(data, pnts[k], k, acc);
      ImagesMeaning(data, a.after, pnts, k + 1, a.value);
      var out := ImagesFrom(data, pos, pnts, k, acc).value.value;
      PrefixStep(out.images, a.value.images, k);
      assert ReadAt(data, pnts[k], out.images[k]);
      forall j | k < j < |pnts|
        ensures ReadAt(data, pnts[j], out.images[j])
      {
      }
    }
  }

  /** A sequence that starts with `t`, of length `k + 1`, agrees with `t`
      on its first `k` elements and on its element `k`. */
  lemma PrefixStep<T>(s: seq<T>, t: seq<T>, k: nat)
    requires |t| == k + 1 <= |s| && s[..k + 1] == t
    ensures s[..k] == t[..k] && s[k] == t[k]
  {
    assert s[..k] == s[..k + 1][..k];
    assert s[k] == s[..k + 1][k];
  }
}
