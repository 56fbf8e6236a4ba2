/** The few Python built-ins whose exact behaviour the reader depends on:
    slicing and indexing with negative positions, and the `str` methods used
    to build note keys, channel names and path fields. */
module PyOps {
  import opened Wrappers

  /** One bound of a step-1 slice, normalised against length `n` the way
      `slice.indices(n)` does: negative bounds count from the end, and the
      result is clamped into 0..n. */
  function SliceBound(n: nat, x: int): (r: nat)
    ensures r <= n
    ensures 0 <= x <= n ==> r == x
    ensures x > n ==> r == n
    ensures x < 0 && 0 <= x + n ==> r == n + x
    ensures x + n < 0 ==> r == 0
  {
    if x < 0 then (if x + n < 0 then 0 else x + n)
    else if x > n then n
    else x
  }

  /** `s[start:stop]`. */
  function Slice<T>(s: seq<T>, start: int, stop: int): (r: seq<T>)
    ensures |r| <= |s|
    ensures var lo, hi := SliceBound(|s|, start), SliceBound(|s|, stop);
            r == if lo < hi then s[lo..hi] else []
  {
    var lo, hi := SliceBound(|s|, start), SliceBound(|s|, stop);
    if lo < hi then s[lo..hi] else []
  }

  /** `s[i]`: negative indices count from the end; `None` is an IndexError. */
  function Index<T>(s: seq<T>, i: int): (r: Option<T>)
    ensures r.Some? <==> 0 <= i + |s| && i < |s|
    ensures 0 <= i < |s| ==> r == Some(s[i])
    ensures i < 0 && 0 <= i + |s| ==> r == Some(s[|s| + i])
  {
    if 0 <= i < |s| then Some(s[i])
    else if i < 0 && 0 <= i + |s| then Some(s[|s| + i])
    else None
  }

  /** `s[i]` where an IndexError is the failure `e`. */
  function IndexOr<T, E>(s: seq<T>, i: int, e: E): (r: Result<T, E>)
    ensures r.Success? <==> Index(s, i).Some?
    ensures r.Success? ==> r.value == Index(s, i).value
    ensures r.Failure? ==> r.error == e
  {
    match Index(s, i)
    case Some(x) => Success(x)
    case None => Failure(e)
  }

  /** `s[::-1]`. */
  function Reversed<T>(s: seq<T>): (r: seq<T>)
    ensures |r| == |s|
    ensures forall k :: 0 <= k < |s| ==> r[k] == s[|s| - 1 - k]
  {
    if s == [] then [] else Reversed(s[1..]) + [s[0]]
  }

  lemma ReversedTwice<T>(s: seq<T>)
    ensures Reversed(Reversed(s)) == s
  {
    var r := Reversed(Reversed(s));
    assert |r| == |s|;
    forall k | 0 <= k < |s| ensures r[k] == s[k] {
    }
  }

  /** `str.isspace()` on one character (the characters `str.split()` splits on). */
  predicate IsSpace(c: char) {
    var x := c as int;
    (9 <= x <= 13) || (28 <= x <= 32) || x == 0x85 || x == 0xA0 || x == 0x1680
    || (0x2000 <= x <= 0x200A) || x == 0x2028 || x == 0x2029 || x == 0x202F
    || x == 0x205F || x == 0x3000
  }

  /** `str.isdigit()` on one character of the Latin-1 range: the ten decimal
      digits and the superscripts two, three and one. */
  predicate IsDigit(c: char) {
    ('0' <= c <= '9') || c as int == 0xB2 || c as int == 0xB3 || c as int == 0xB9
  }

  /** `str.isdigit()` on a whole string: non-empty and every character a digit. */
  predicate IsDigits(s: string) {
    |s| > 0 && forall k :: 0 <= k < |s| ==> IsDigit(s[k])
  }

  /** `t` occurs in `s` starting at position `i`. */
  predicate OccursAt(s: string, t: string, i: nat) {
    i + |t| <= |s| && s[i..i + |t|] == t
  }

  /** `t in s` on strings. */
  predicate Contains(s: string, t: string) {
    exists i: nat | i <= |s| :: OccursAt(s, t, i)
  }

  /** `''.join(s.split())`: every whitespace character removed. */
  function RemoveSpaces(s: string): (r: string)
    ensures |r| <= |s|
    ensures forall k :: 0 <= k < |r| ==> !IsSpace(r[k])
    ensures (forall k :: 0 <= k < |s| ==> !IsSpace(s[k])) ==> r == s
  {
    if s == [] then []
    else if IsSpace(s[0]) then RemoveSpaces(s[1..])
    else [s[0]] + RemoveSpaces(s[1..])
  }

  /** `s.replace(c, '')`. */
  function RemoveChar(s: string, c: char): (r: string)
    ensures |r| <= |s|
    ensures c !in r
    ensures forall k :: 0 <= k < |r| ==> r[k] in s
    ensures c !in s ==> r == s
  {
    if s == [] then []
    else if s[0] == c then RemoveChar(s[1..], c)
    else [s[0]] + RemoveChar(s[1..], c)
  }

  /** Every other character stays as often as it occurs. */
  lemma {:induction false} RemoveCharCounts(s: string, c: char)
    ensures forall x :: x != c ==> multiset(RemoveChar(s, c))[x] == multiset(s)[x]
    decreases |s|
  {
    if s != [] {
      assert s == [s[0]] + s[1..];
      RemoveCharCounts(s[1..], c);
    }
  }

  /** Removing a character from two pieces and joining them is removing it
      from their join: the characters that stay keep their order. */
  lemma {:induction false} RemoveCharAppend(a: string, b: string, c: char)
    ensures RemoveChar(a + b, c) == RemoveChar(a, c) + RemoveChar(b, c)
    decreases |a|
  {
    if a == [] {
      assert a + b == b;
    } else {
      assert (a + b)[0] == a[0] && (a + b)[1..] == a[1..] + b;
      RemoveCharAppend(a[1..], b, c);
    }
  }

  /** `s.rstrip(c)` for a single character `c`. */
  function RStrip(s: string, c: char): (r: string)
    ensures |r| <= |s| && r == s[..|r|]
    ensures r == [] || r[|r| - 1] != c
    ensures forall k :: |r| <= k < |s| ==> s[k] == c
  {
    if s == [] then []
    else if s[|s| - 1] == c then RStrip(s[..|s| - 1], c)
    else s
  }

  /** The pieces joined back with the separator. */
  function Join(parts: seq<string>, sep: char): string
    requires |parts| >= 1
  {
    if |parts| == 1 then parts[0] else parts[0] + [sep] + Join(parts[1..], sep)
  }

  /** `s.split(sep)` for a one-character separator `sep`. */
  function SplitOn(s: string, sep: char): (r: seq<string>)
    ensures |r| >= 1
    ensures forall k :: 0 <= k < |r| ==> sep !in r[k]
    ensures Join(r, sep) == s
  {
    if s == [] then [[]]
    else if s[0] == sep then [[]] + SplitOn(s[1..], sep)
    else
      var t := SplitOn(s[1..], sep);
      JoinConsHead(t, s[0], sep);
      [[s[0]] + t[0]] + t[1..]
  }

  lemma JoinConsHead(t: seq<string>, c: char, sep: char)
    requires |t| >= 1
    ensures Join([[c] + t[0]] + t[1..], sep) == [c] + Join(t, sep)
  {
    var u := [[c] + t[0]] + t[1..];
    assert u[1..] == t[1..];
  }

  /** The last piece of `s.split(sep)`: `s.split(sep)[-1]`. */
  function LastPiece(s: string, sep: char): string {
    var parts := SplitOn(s, sep);
    parts[|parts| - 1]
  }

  /** `os.path.basename(path)` on a POSIX path: everything after the last '/'. */
  function Basename(path: string): (r: string)
    ensures '/' !in r
  {
    LastPiece(path, '/')
  }

  /** `os.path.splitext(name)[0]` for a name without '/': the text before the
      last '.', unless only dots precede that '.', in which case `name` itself. */
  function SplitExtRoot(name: string): (r: string)
    ensures |r| <= |name| && r == name[..|r|]
  {
    var ext := LastPiece(name, '.');
    if |ext| == |name| then name
    else
      LastPieceIsSuffix(name, '.');
      var d := |name| - |ext| - 1;
      if exists k :: 0 <= k < d && name[k] != '.' then name[..d] else name
  }

  lemma JoinLastIsSuffix(parts: seq<string>, sep: char)
    requires |parts| >= 1
    ensures var j, l := Join(parts, sep), parts[|parts| - 1];
            |l| <= |j| && j[|j| - |l|..] == l
            && (|parts| > 1 ==> |l| < |j| && j[|j| - |l| - 1] == sep)
  {
    if |parts| > 1 {
      JoinLastIsSuffix(parts[1..], sep);
    }
  }

  lemma LastPieceIsSuffix(s: string, sep: char)
    ensures var l := LastPiece(s, sep);
            |l| <= |s| && s[|s| - |l|..] == l
            && (|l| < |s| ==> s[|s| - |l| - 1] == sep)
  {
    var parts := SplitOn(s, sep);
    JoinLastIsSuffix(parts, sep);
    if |parts| == 1 {
      assert Join(parts, sep) == parts[0];
    }
  }

  /** `list.index(x)`: the first position holding `x`; a ValueError when
      there is none. */
  function IndexOf<T(==), E>(s: seq<T>, x: T, e: E): (r: Result<nat, E>)
    ensures r.Success? <==> x in s
    ensures r.Success? ==> r.value < |s| && s[r.value] == x && forall k :: 0 <= k < r.value ==> s[k] != x
    ensures r.Failure? ==> r.error == e
  {
    if s == [] then Failure(e)
    else if s[0] == x then Success(0)
    else
      match IndexOf(s[1..], x, e)
      case Success(i) => Success(i + 1)
      case Failure(f) => Failure(f)
  }

  /** `divmod(q * n + r, n) == (q, r)` for `0 <= r < n`. */
  lemma DivModOf(q: nat, r: nat, n: nat)
    requires r < n
    ensures (q * n + r) / n == q && (q * n + r) % n == r
  {
    var k := q * n + r;
    var d, m := k / n, k % n;
    assert k == d * n + m && 0 <= m < n;
    if d > q {
      MulLeft(d - q, n);
      assert false;
    } else if d < q {
      MulLeft(q - d, n);
      assert false;
    }
  }

  lemma MulLeft(a: int, n: nat)
    requires a >= 1
    ensures a * n >= n
  {
  }

  /** `(a + sep + b).split(sep) == a.split(sep) + b.split(sep)`. */
  lemma {:induction false} SplitOnAppend(a: string, b: string, sep: char)
    ensures SplitOn(a + [sep] + b, sep) == SplitOn(a, sep) + SplitOn(b, sep)
    decreases |a|
  {
    var s := a + [sep] + b;
    if a == [] {
      assert s == [sep] + b;
      SplitOnCons(sep, b, sep);
    } else {
      assert s == [a[0]] + (a[1..] + [sep] + b) && a == [a[0]] + a[1..];
      SplitOnAppend(a[1..], b, sep);
      SplitOnCons(a[0], a[1..] + [sep] + b, sep);
      SplitOnCons(a[0], a[1..], sep);
      var ta, tb := SplitOn(a[1..], sep), SplitOn(b, sep);
      if a[0] == sep {
        ConsAssoc([], ta, tb);
        assert SplitOn(s, sep) == [[]] + (ta + tb);
      } else {
        ConsPieces([a[0]], ta, tb);
        assert SplitOn(s, sep) == [[a[0]] + (ta + tb)[0]] + (ta + tb)[1..];
      }
    }
  }

  /** One step of `split`: a leading separator starts a new empty piece,
      any other character joins the first piece. */
  lemma SplitOnCons(c: char, r: string, sep: char)
    ensures SplitOn([c] + r, sep) ==
      if c == sep then [[]] + SplitOn(r, sep) else [[c] + SplitOn(r, sep)[0]] + SplitOn(r, sep)[1..]
  {
    assert ([c] + r)[0] == c && ([c] + r)[1..] == r;
  }

  lemma ConsAssoc(x: string, ta: seq<string>, tb: seq<string>)
    ensures [x] + (ta + tb) == ([x] + ta) + tb
  {
  }

  lemma ConsPieces(x: string, ta: seq<string>, tb: seq<string>)
    requires |ta| >= 1
    ensures [x + (ta + tb)[0]] + (ta + tb)[1..] == ([x + ta[0]] + ta[1..]) + tb
  {
    assert (ta + tb)[1..] == ta[1..] + tb;
  }

  /** An index below `a * n` has a quotient below `a`. */
  lemma DivBelow(k: nat, a: nat, n: nat)
    requires k < a * n
    ensures n > 0 && k / n < a
  {
    if k / n >= a {
      MulLeft(k / n - a + 1, n);
      assert false;
    }
  }

  /** Two different numbers differ in quotient or remainder. */
  lemma DivModUnique(k: nat, l: nat, n: nat)
    requires n > 0 && k != l
    ensures (k / n, k % n) != (l / n, l % n)
  {
  }

  /** Place `r` of block `q` lies within the first `a` blocks of `n`. */
  lemma PlaceBelow(q: nat, r: nat, a: nat, n: nat)
    requires q < a && r < n
    ensures q * n + r < a * n
  {
    MulLeft(a - q, n);
    assert a * n == q * n + (a - q) * n;
  }

  /** Quotient and remainder put back together. */
  lemma Euclid(k: nat, n: nat)
    requires n > 0
    ensures k == (k / n) * n + k % n && k % n < n
  {
  }
}
