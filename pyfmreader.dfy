/** `loadfile`: the entry point that picks a loader from the file's suffix.
    The loaders themselves are not part of this model; the result names the
    loader that is called, or `None` when the function falls through. */
module PyFmReader {
  import opened Wrappers
  import opened Errors
  import PyOps

  /** The loaders `loadfile` can hand the file to. The JPK loader is also
      given the suffix. */
  datatype Kind = Nanoscope | Jpk | Uff | JpkThermal | PsNex

  /** The suffix lists of the package constants (the constants module is not
      part of this model, so they are a parameter). */
  datatype SuffixLists = SuffixLists(nanoscFiles: seq<string>, jpkFiles: seq<string>, uffFiles: seq<string>,
                                     jpkThermalFiles: seq<string>, psnexFiles: seq<string>)

  /** The suffix: the last '.'-separated piece, or the one before it when the
      last is "zip"; a path that is just "zip" has no piece before it. */
  function Suffix(filepath: string): Result<string, Error> {
    SuffixOf(PyOps.SplitOn(filepath, '.'))
  }

  /** The suffix from the pieces of the path. */
  function SuffixOf(parts: seq<string>): Result<string, Error>
    requires |parts| >= 1
  {
    if parts[|parts| - 1] == "zip" then PyOps.IndexOr(parts, -2, BadIndex)
    else Success(parts[|parts| - 1])
  }

  /** Whether the branch of `kind` accepts the suffix: for NANOSCOPE files
      either everything after the first character is digits, or the suffix
      is listed. */
  predicate Claims(kind: Kind, suffix: string, lists: SuffixLists) {
    match kind
    case Nanoscope => PyOps.IsDigits(PyOps.Slice(suffix, 1, |suffix|)) || suffix in lists.nanoscFiles
    case Jpk => suffix in lists.jpkFiles
    case Uff => suffix in lists.uffFiles
    case JpkThermal => suffix in lists.jpkThermalFiles
    case PsNex => suffix in lists.psnexFiles
  }

  /** The if/elif chain, whose branches are tried in this order. */
  const Order: seq<Kind> := [Nanoscope, Jpk, Uff, JpkThermal, PsNex]

  /** The dispatch of `loadfile` on a suffix. `instrument` is the "instrument"
      property of the file's "Force Curve" group, read only for PS-NEX files:
      a missing property is `None`, and `in` on `None` is a TypeError. A
      PS-NEX file of another instrument, and a suffix no branch accepts,
      return `None` (the exception is built but not raised). */
  function Dispatch(suffix: string, lists: SuffixLists, instrument: Option<string>): Result<Option<Kind>, Error> {
    if PyOps.IsDigits(PyOps.Slice(suffix, 1, |suffix|)) || suffix in lists.nanoscFiles then Success(Some(Nanoscope))
    else if suffix in lists.jpkFiles then Success(Some(Jpk))
    else if suffix in lists.uffFiles then Success(Some(Uff))
    else if suffix in lists.jpkThermalFiles then Success(Some(JpkThermal))
    else if suffix in lists.psnexFiles then
      match instrument
      case None => Failure(WrongKind)
      case Some(s) => if PyOps.Contains(s, "PSnex") then Success(Some(PsNex)) else Success(None)
    else Success(None)
  }

  /** `loadfile(filepath)`. */
  function LoadFile(filepath: string, lists: SuffixLists, instrument: Option<string>): Result<Option<Kind>, Error> {
    var suffix :- Suffix(filepath);
    Dispatch(suffix, lists, instrument)
  }

  /** The first kind of `kinds` whose branch accepts the suffix. */
  function FirstClaim(kinds: seq<Kind>, suffix: string, lists: SuffixLists): (r: Option<Kind>)
    ensures r.Some? ==> r.value in kinds && Claims(r.value, suffix, lists)
    ensures r.None? ==> forall k :: 0 <= k < |kinds| ==> !Claims(kinds[k], suffix, lists)
  {
    if kinds == [] then None
    else if Claims(kinds[0], suffix, lists) then Some(kinds[0])
    else FirstClaim(kinds[1..], suffix, lists)
  }

  /** `FirstClaim` is the first one: every kind before it refuses. */
  lemma {:induction false} FirstClaimIsFirst(kinds: seq<Kind>, suffix: string, lists: SuffixLists, i: nat)
    requires i < |kinds| && FirstClaim(kinds, suffix, lists) == Some(kinds[i])
    requires forall j :: 0 <= j < i ==> kinds[j] != kinds[i]
    ensures forall j :: 0 <= j < i ==> !Claims(kinds[j], suffix, lists)
    decreases i
  {
    if i > 0 {
      assert kinds[0] != kinds[i];
      assert !Claims(kinds[0], suffix, lists);
      FirstClaimIsFirst(kinds[1..], suffix, lists, i - 1);
      forall j | 0 <= j < i ensures !Claims(kinds[j], suffix, lists) {
        if j > 0 {
          assert kinds[j] == kinds[1..][j - 1];
        }
      }
    }
  }

  /** The chain is "the first branch in `Order` that accepts the suffix
      wins", with the instrument check when that branch is PS-NEX. */
  lemma DispatchIsFirstClaim(suffix: string, lists: SuffixLists, instrument: Option<string>)
    ensures Dispatch(suffix, lists, instrument) ==
      match FirstClaim(Order, suffix, lists)
      case None => Success(None)
      case Some(PsNex) =>
        (match instrument
         case None => Failure(WrongKind)
         case Some(s) => Success(if PyOps.Contains(s, "PSnex") then Some(PsNex) else None))
      case Some(k) => Success(Some(k))
  {
    var o1, o2, o3, o4 := [Jpk, Uff, JpkThermal, PsNex], [Uff, JpkThermal, PsNex], [JpkThermal, PsNex], [PsNex];
    assert Order[1..] == o1 && o1[1..] == o2 && o2[1..] == o3 && o3[1..] == o4 && o4[1..] == [];
    assert FirstClaim(o4, suffix, lists) == if Claims(PsNex, suffix, lists) then Some(PsNex) else None;
    assert FirstClaim(o3, suffix, lists) ==
      if Claims(JpkThermal, suffix, lists) then Some(JpkThermal) else FirstClaim(o4, suffix, lists);
    assert FirstClaim(o2, suffix, lists) == if Claims(Uff, suffix, lists) then Some(Uff) else FirstClaim(o3, suffix, lists);
    assert FirstClaim(o1, suffix, lists) == if Claims(Jpk, suffix, lists) then Some(Jpk) else FirstClaim(o2, suffix, lists);
    assert FirstClaim(Order, suffix, lists) ==
      if Claims(Nanoscope, suffix, lists) then Some(Nanoscope) else FirstClaim(o1, suffix, lists);
  }

  /** The branch taken is the first of the chain that accepts the suffix:
      every earlier branch refuses it. */
  lemma DispatchOrder(suffix: string, lists: SuffixLists, instrument: Option<string>, i: nat)
    requires i < |Order| && Dispatch(suffix, lists, instrument) == Success(Some(Order[i]))
    ensures Claims(Order[i], suffix, lists)
    ensures forall j :: 0 <= j < i ==> !Claims(Order[j], suffix, lists)
  {
    DispatchIsFirstClaim(suffix, lists, instrument);
    FirstClaimIsFirst(Order, suffix, lists, i);
  }

  /** The suffix never contains '.'; it is the last piece unless that piece
      is "zip", and the only path without one is "zip" itself. */
  lemma SuffixMeaning(filepath: string)
    ensures Suffix(filepath).Failure? <==> filepath == "zip"
    ensures Suffix(filepath).Success? ==> '.' !in Suffix(filepath).value
    ensures PyOps.LastPiece(filepath, '.') != "zip" ==> Suffix(filepath) == Success(PyOps.LastPiece(filepath, '.'))
  {
    var parts := PyOps.SplitOn(filepath, '.');
    SplitZip();
    if |parts| == 1 {
      assert PyOps.Join(parts, '.') == parts[0];
    } else if parts[|parts| - 1] == "zip" {
      PyOps.JoinLastIsSuffix(parts, '.');
      assert filepath != "zip";
      assert Suffix(filepath) == Success(parts[|parts| - 2]);
    }
  }

  lemma SplitZip()
    ensures PyOps.SplitOn("zip", '.') == ["zip"]
  {
    assert "zip"[1..] == "ip" && "ip"[1..] == "p" && "p"[1..] == [];
  }

  /** A path whose suffix is not "zip" is dispatched the same with ".zip"
      appended: the archive of a JPK file is read like the file. */
  lemma ZipIsTransparent(filepath: string, lists: SuffixLists, instrument: Option<string>)
    requires PyOps.LastPiece(filepath, '.') != "zip"
    ensures Suffix(filepath + ".zip") == Suffix(filepath)
    ensures LoadFile(filepath + ".zip", lists, instrument) == LoadFile(filepath, lists, instrument)
  {
    ZipSuffix(filepath);
  }

  lemma ZipSuffix(filepath: string)
    requires PyOps.LastPiece(filepath, '.') != "zip"
    ensures Suffix(filepath + ".zip") == Success(PyOps.LastPiece(filepath, '.'))
    ensures Suffix(filepath) == Success(PyOps.LastPiece(filepath, '.'))
  {
    var zipped := filepath + ".zip";
    assert zipped == filepath + ['.'] + "zip";
    PyOps.SplitOnAppend(filepath, "zip", '.');
    SplitZip();
    var before := PyOps.SplitOn(filepath, '.');
    assert PyOps.SplitOn(zipped, '.') == before + ["zip"];
    ZipPiece(before);
    SuffixMeaning(filepath);
  }

  lemma ZipPiece(before: seq<string>)
    requires |before| >= 1
    ensures SuffixOf(before + ["zip"]) == Success(before[|before| - 1])
  {
    var parts := before + ["zip"];
    assert parts[|parts| - 1] == "zip" && parts[|parts| - 2] == before[|before| - 1];
  }
}
