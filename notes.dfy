/** Asylum Research notes: text made of `key: value` lines, each ended by a
    carriage return, parsed into a dictionary by a one-pass scanner. */
module Notes {
  import opened Wrappers
  import opened PyOps

  const CR: char := 13 as char

  /** The index of the first colon. */
  function FirstColon(s: string): (r: nat)
    requires ':' in s
    ensures r < |s| && s[r] == ':' && ':' !in s[..r]
  {
    if s[0] == ':' then 0
    else
      var r := FirstColon(s[1..]) + 1;
      assert s[..r] == [s[0]] + s[1..][..r - 1];
      r
  }

  /** The title with all whitespace and every '.' removed. */
  function Clean(title: string): string {
    RemoveChar(RemoveSpaces(title), '.')
  }

  /** What every stored key looks like. */
  predicate ValidKey(k: string) {
    |k| > 0 && !IsDigit(k[0]) && '.' !in k && forall j :: 0 <= j < |k| ==> !IsSpace(k[j])
  }

  /** The key a title is stored under: the cleaned title, with an 'n' in
      front when it is empty or starts with a digit. */
  function Key(title: string): (r: string)
    ensures ValidKey(r)
    ensures r == Clean(title) || r == "n" + Clean(title)
    ensures r == Clean(title) <==> |Clean(title)| > 0 && !IsDigit(Clean(title)[0])
  {
    var t := Clean(title);
    CleanValid(title);
    if t == [] || IsDigit(t[0]) then "n" + t else t
  }

  lemma CleanValid(title: string)
    ensures var t := Clean(title);
      '.' !in t && forall j :: 0 <= j < |t| ==> !IsSpace(t[j])
  {
    var s := RemoveSpaces(title);
    var t := RemoveChar(s, '.');
    forall j | 0 <= j < |t| ensures !IsSpace(t[j]) {
      var i :| 0 <= i < |s| && s[i] == t[j];
    }
  }

  /** Where a value starts: after the colon at `c` and one space, if one follows. */
  function ValueStart(seg: string, c: nat): nat {
    if c + 1 < |seg| && seg[c + 1] == ' ' then c + 2 else c + 1
  }

  datatype Note = Note(key: string, value: string)

  /** The entry one segment (a line without its CR) contributes: none
      without a colon; otherwise split at the first colon. */
  function Entry(seg: string): (r: Option<Note>)
    ensures r.None? <==> ':' !in seg
  {
    if ':' in seg then
      var c := FirstColon(seg);
      Some(Note(Key(seg[..c]), seg[ValueStart(seg, c)..]))
    else None
  }

  /** Independently of where the scanner looks: a segment `title:rest` whose
      title has no colon is stored under `title`'s key, with the value `rest`
      less one leading space. */
  lemma EntryOf(title: string, rest: string)
    requires ':' !in title
    ensures Entry(title + [':'] + rest) ==
      Some(Note(Key(title), if |rest| > 0 && rest[0] == ' ' then rest[1..] else rest))
  {
    var seg := title + [':'] + rest;
    assert seg[|title|] == ':';
    var c := FirstColon(seg);
    assert seg[..c] == title;
    assert seg[c + 1..] == rest;
  }

  /** The carriage-return-terminated segments of `s`, the first of them
      continuing `cur`; text after the last CR forms no segment. */
  function Segs(s: string, cur: string): seq<string>
    decreases |s|
  {
    if s == [] then []
    else if s[0] == CR then [cur] + Segs(s[1..], [])
    else Segs(s[1..], cur + [s[0]])
  }

  /** The dictionary after storing one segment's entry. */
  function Record(m: map<string, string>, seg: string): map<string, string> {
    match Entry(seg)
    case None => m
    case Some(n) => m[n.key := n.value]
  }

  /** The dictionary after storing the segments' entries in order. */
  function Fold(m: map<string, string>, segs: seq<string>): map<string, string>
    decreases |segs|
  {
    if segs == [] then m else Fold(Record(m, segs[0]), segs[1..])
  }

  /** What `parse_notes` returns for `s`. */
  function NotesOf(s: string): map<string, string> {
    Fold(map[], Segs(s, []))
  }

  /** The segments written out, each followed by its CR. */
  function Terminated(segs: seq<string>): string {
    if segs == [] then [] else segs[0] + [CR] + Terminated(segs[1..])
  }

  predicate NoCR(segs: seq<string>) {
    forall k :: 0 <= k < |segs| ==> CR !in segs[k]
  }

  lemma {:induction false} SegsPlain(t: string, cur: string)
    requires CR !in t
    ensures Segs(t, cur) == []
    decreases |t|
  {
    if t != [] {
      assert t[0] in t;
      assert CR !in t[1..] by {
        forall c | c in t[1..] ensures c in t { }
      }
      SegsPlain(t[1..], cur + [t[0]]);
    }
  }

  lemma {:induction false} SegsSegment(seg: string, rest: string, cur: string)
    requires CR !in seg
    ensures Segs(seg + [CR] + rest, cur) == [cur + seg] + Segs(rest, [])
    decreases |seg|
  {
    var s := seg + [CR] + rest;
    if seg == [] {
      assert s[1..] == rest;
      assert cur + seg == cur;
    } else {
      assert seg[0] in seg;
      assert s[1..] == seg[1..] + [CR] + rest;
      assert CR !in seg[1..] by {
        forall c | c in seg[1..] ensures c in seg { }
      }
      SegsSegment(seg[1..], rest, cur + [seg[0]]);
      assert cur + [seg[0]] + seg[1..] == cur + seg;
    }
  }

  /** Splitting the written-out segments gives them back, whatever unterminated
      text follows the last CR. */
  lemma {:induction false} SegsTerminated(segs: seq<string>, t: string)
    requires NoCR(segs) && CR !in t
    ensures Segs(Terminated(segs) + t, []) == segs
  {
    if segs == [] {
      assert Terminated(segs) + t == t;
      SegsPlain(t, []);
    } else {
      assert Terminated(segs) + t == segs[0] + [CR] + (Terminated(segs[1..]) + t);
      SegsSegment(segs[0], Terminated(segs[1..]) + t, []);
      SegsTerminated(segs[1..], t);
      assert [] + segs[0] == segs[0];
    }
  }

  lemma {:induction false} FoldAppend(m: map<string, string>, a: seq<string>, b: seq<string>)
    ensures Fold(m, a + b) == Fold(Fold(m, a), b)
    decreases |a|
  {
    if a == [] {
      assert a + b == b;
    } else {
      assert (a + b)[1..] == a[1..] + b;
      FoldAppend(Record(m, a[0]), a[1..], b);
    }
  }

  /** Text after the last carriage return is never recorded. */
  lemma TrailingIgnored(segs: seq<string>, t: string)
    requires NoCR(segs) && CR !in t
    ensures NotesOf(Terminated(segs) + t) == NotesOf(Terminated(segs))
  {
    SegsTerminated(segs, t);
    SegsTerminated(segs, []);
    assert Terminated(segs) + [] == Terminated(segs);
  }

  /** What one more line does: a line without a colon leaves the dictionary
      as it was; a line with one stores its value under its key,
      overwriting an earlier entry under the same key. */
  lemma LastLine(segs: seq<string>, seg: string, t: string)
    requires NoCR(segs) && CR !in seg && CR !in t
    ensures var after := NotesOf(Terminated(segs + [seg]) + t);
      var before := NotesOf(Terminated(segs));
      && (':' !in seg ==> after == before)
      && (':' in seg ==>
            var c := FirstColon(seg);
            after == before[Key(seg[..c]) := seg[ValueStart(seg, c)..]])
  {
    assert NoCR(segs + [seg]);
    SegsTerminated(segs + [seg], t);
    SegsTerminated(segs, []);
    assert Terminated(segs) + [] == Terminated(segs);
    FoldAppend(map[], segs, [seg]);
  }

  lemma {:induction false} FoldKeys(m: map<string, string>, segs: seq<string>)
    requires forall k :: k in m ==> ValidKey(k)
    ensures forall k :: k in Fold(m, segs) ==> ValidKey(k)
    decreases |segs|
  {
    if segs != [] {
      FoldKeys(Record(m, segs[0]), segs[1..]);
    }
  }

  /** Every key of the parsed notes is non-empty, free of whitespace and
      dots, and does not start with a digit. */
  lemma NotesKeys(s: string)
    ensures forall k :: k in NotesOf(s) ==> ValidKey(k)
  {
    FoldKeys(map[], Segs(s, []));
  }

  /** `parse_notes`: scans once, remembering where the current line's
      title starts, where its first colon and its value are, and whether a
      colon has been seen; at each CR it stores the line's entry. */
  method ParseNotes(nts: string) returns (notes: map<string, string>)
    ensures notes == NotesOf(nts)
  {
    notes := map[];
    var size := |nts|;
    var idx := 0;
    var titleStart := 0;
    var titleEnd := 0;
    var dataStart := 0;
    var found := false;
    while idx < size
      invariant 0 <= titleStart <= idx <= size
      invariant forall j :: titleStart <= j < idx ==> nts[j] != CR
      invariant !found ==> forall j :: titleStart <= j < idx ==> nts[j] != ':'
      invariant found ==> ColonOfLine(nts, titleStart, titleEnd + 1, idx)
      invariant found ==> dataStart == ValueStart(nts, titleEnd + 1)
      invariant NotesOf(nts) == Pending(nts, titleStart, idx, notes)
    {
      ghost var before := notes;
      ghost var ts := titleStart;
      if nts[idx] == ':' && !found {
        titleEnd := idx - 1;
        if idx + 1 < size && nts[idx + 1] == ' ' {
          dataStart := idx + 2;
        } else {
          dataStart := idx + 1;
        }
        found := true;
      }
      if nts[idx] == CR {
        notes := StoreLine(nts, titleStart, titleEnd, dataStart, idx, found, notes);
        titleStart := idx + 1;
        found := false;
        PendingClose(nts, ts, idx, before);
        assert Pending(nts, ts, idx, before) == Pending(nts, titleStart, idx + 1, notes);
      } else {
        PendingPlain(nts, ts, idx, before);
        assert Pending(nts, ts, idx, before) == Pending(nts, titleStart, idx + 1, notes);
      }
      idx := idx + 1;
    }
    assert nts[idx..] == [];
    assert Segs(nts[idx..], nts[titleStart..idx]) == [];
  }

  /** The dictionary the scanner will hold at the end, given that it holds
      `notes` at `idx` with the current line starting at `ts`. */
  function Pending(nts: string, ts: nat, idx: nat, notes: map<string, string>): map<string, string>
    requires ts <= idx <= |nts|
  {
    Fold(notes, Segs(nts[idx..], nts[ts..idx]))
  }

  lemma PendingPlain(nts: string, ts: nat, idx: nat, notes: map<string, string>)
    requires ts <= idx < |nts| && nts[idx] != CR
    ensures Pending(nts, ts, idx, notes) == Pending(nts, ts, idx + 1, notes)
  {
    SegsStep(nts, ts, idx);
  }

  lemma PendingClose(nts: string, ts: nat, idx: nat, notes: map<string, string>)
    requires ts <= idx < |nts| && nts[idx] == CR
    ensures Pending(nts, ts, idx, notes) == Pending(nts, idx + 1, idx + 1, Record(notes, nts[ts..idx]))
  {
    SegsStep(nts, ts, idx);
    FoldCons(notes, nts[ts..idx], Segs(nts[idx + 1..], []));
    assert nts[idx + 1..idx + 1] == [];
  }

  lemma FoldCons(m: map<string, string>, seg: string, rest: seq<string>)
    ensures Fold(m, [seg] + rest) == Fold(Record(m, seg), rest)
  {
    assert ([seg] + rest)[1..] == rest;
  }

  /** In `nts`, the line from `ts` has its first colon at `c`, before `idx`. */
  predicate ColonOfLine(nts: string, ts: int, c: int, idx: int) {
    0 <= ts <= c < idx <= |nts| && nts[c] == ':' && forall j :: ts <= j < c ==> nts[j] != ':'
  }

  /** One scanner step on the specification side: a CR closes the current
      segment, any other character extends it. */
  lemma SegsStep(nts: string, ts: nat, idx: nat)
    requires ts <= idx < |nts|
    ensures Segs(nts[idx..], nts[ts..idx]) ==
      if nts[idx] == CR then [nts[ts..idx]] + Segs(nts[idx + 1..], [])
      else Segs(nts[idx + 1..], nts[ts..idx + 1])
  {
    assert nts[idx..][0] == nts[idx] && nts[idx..][1..] == nts[idx + 1..];
    assert nts[ts..idx + 1] == nts[ts..idx] + [nts[idx]];
  }

  /** The line closed at `idx` holds the entry the scanner stores. */
  lemma LineEntry(nts: string, ts: nat, c: nat, idx: nat)
    requires ColonOfLine(nts, ts, c, idx) && idx < |nts| && nts[idx] == CR
    ensures Entry(nts[ts..idx]) ==
      Some(Note(Key(Slice(nts, ts, c)), Slice(nts, ValueStart(nts, c), idx)))
  {
    var seg := nts[ts..idx];
    var title := nts[ts..c];
    assert seg[c - ts] == ':';
    assert seg[..c - ts] == title;
    assert ':' !in title by {
      forall k | 0 <= k < |title| ensures title[k] != ':' {
        assert title[k] == nts[ts + k];
      }
    }
    ColonIs(seg, c - ts);
    assert ValueStart(seg, c - ts) + ts == ValueStart(nts, c);
    assert seg[ValueStart(seg, c - ts)..] == nts[ValueStart(nts, c)..idx];
  }

  /** What the scanner does at the CR at `idx`: build the key from the
      title, cut the value, and store them when the line had a colon. */
  method StoreLine(nts: string, titleStart: nat, titleEnd: int, dataStart: int, idx: nat, found: bool,
                   notes: map<string, string>) returns (r: map<string, string>)
    requires titleStart <= idx < |nts| && nts[idx] == CR
    requires found ==> ColonOfLine(nts, titleStart, titleEnd + 1, idx) && dataStart == ValueStart(nts, titleEnd + 1)
    requires !found ==> forall j :: titleStart <= j < idx ==> nts[j] != ':'
    ensures r == Record(notes, nts[titleStart..idx])
  {
    var dataEnd := idx - 1;
    var title := Slice(nts, titleStart, titleEnd + 1);
    var data := Slice(nts, dataStart, dataEnd + 1);
    var key := RemoveChar(RemoveSpaces(title), '.');
    if |key| == 0 || IsDigit(key[0]) {
      key := "n" + key;
    }
    CloseRecord(nts, titleStart, titleEnd + 1, idx, found, notes);
    r := notes;
    if found {
      r := r[key := data];
    }
  }

  /** The dictionary after the line closed at `idx`. */
  lemma CloseRecord(nts: string, ts: nat, c: int, idx: nat, found: bool, notes: map<string, string>)
    requires ts <= idx < |nts| && nts[idx] == CR
    requires found ==> ColonOfLine(nts, ts, c, idx)
    requires !found ==> forall j :: ts <= j < idx ==> nts[j] != ':'
    ensures Record(notes, nts[ts..idx]) ==
      if found then notes[Key(Slice(nts, ts, c)) := Slice(nts, ValueStart(nts, c), idx)] else notes
  {
    if found {
      LineEntry(nts, ts, c, idx);
    } else {
      NoColonEntry(nts, ts, idx);
    }
  }

  /** A line without a colon holds no entry. */
  lemma NoColonEntry(nts: string, ts: nat, idx: nat)
    requires ts <= idx <= |nts|
    requires forall j :: ts <= j < idx ==> nts[j] != ':'
    ensures Entry(nts[ts..idx]) == None
  {
    var seg := nts[ts..idx];
    assert forall k :: 0 <= k < |seg| ==> seg[k] == nts[ts + k];
  }

  /** A colon with none before it is the first one. */
  lemma ColonIs(s: string, c: nat)
    requires c < |s| && s[c] == ':' && ':' !in s[..c]
    ensures ':' in s && FirstColon(s) == c
  {
    assert s[c] in s;
    var d := FirstColon(s);
  }
}
