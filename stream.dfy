/** The open file: its bytes and the read/seek position every reader moves.
    The semantics of a binary file opened with `open(path, 'rb')` are kept:
    a read near the end returns fewer bytes than asked for, a size of -1
    reads to the end, a size below -1 is a ValueError, and the position may
    lie beyond the end of the file (reads there return nothing). */
module Stream {
  import opened Wrappers
  import opened Bytes
  import opened Errors

  /** A value decoded at some position, together with the position just after it. */
  datatype Parsed<+T> = Parsed(value: T, after: nat)

  /** The bytes `read(n)` returns at position `pos`. */
  function Chunk(data: seq<byte>, pos: nat, n: int): (r: seq<byte>)
    requires n >= -1
    ensures |r| == Avail(|data|, pos, n)
  {
    if pos >= |data| then []
    else if n == -1 || pos + n > |data| then data[pos..]
    else data[pos..pos + n]
  }

  /** How many bytes `read(n)` returns at `pos` in a file of `len` bytes. */
  function Avail(len: nat, pos: nat, n: int): nat
    requires n >= -1
  {
    if pos >= len then 0 else if n == -1 || pos + n > len then len - pos else n
  }

  /** `fid.read(n)` as a value and the position after it. */
  function BytesAt(data: seq<byte>, pos: nat, n: int): Parsed<seq<byte>>
    requires n >= -1
  {
    var b := Chunk(data, pos, n);
    Parsed(b, pos + |b|)
  }

  /** `fid.read(n)` for a size computed from the file, which may be any
      integer: below -1 it raises. */
  function ReadBytesAt(data: seq<byte>, pos: nat, n: int): (r: Result<Parsed<seq<byte>>, Error>)
    ensures r.Failure? <==> n < -1
    ensures r.Failure? ==> r.error == NegativeRead
  {
    if n < -1 then Failure(NegativeRead) else Success(BytesAt(data, pos, n))
  }

  /** `struct.unpack('<I'|'<Q', fid.read(n))`: fails unless all `n` bytes are there. */
  function UnpackAt(data: seq<byte>, pos: nat, n: nat): Result<Parsed<nat>, Error> {
    var b := Chunk(data, pos, n);
    if |b| == n then Success(Parsed(LE(b), pos + n)) else Failure(ShortRead)
  }

  /** `int.from_bytes(fid.read(n), 'little')`: a short read gives a smaller number. */
  function FromBytesAt(data: seq<byte>, pos: nat, n: nat): Parsed<nat> {
    var b := Chunk(data, pos, n);
    Parsed(LE(b), pos + |b|)
  }

  /** `fid.read(n).decode('ascii')`. */
  function AsciiAt(data: seq<byte>, pos: nat, n: nat): Result<Parsed<string>, Error> {
    var b := Chunk(data, pos, n);
    if IsAscii(b) then Success(Parsed(Chars(b), pos + |b|)) else Failure(NotAscii)
  }

  /** `fid.read(n).decode('latin-1')` and `''.join(map(chr, fid.read(n)))`. */
  function Latin1At(data: seq<byte>, pos: nat, n: int): Parsed<string>
    requires n >= -1
  {
    var b := Chunk(data, pos, n);
    Parsed(Chars(b), pos + |b|)
  }

  /** Where a reader starts: `address == -1` means the current position,
      anything else is an absolute `seek(address, 0)`, which Python refuses
      for a negative position. */
  function StartAt(pos: nat, address: int): Result<nat, Error> {
    if address == -1 then Success(pos)
    else if address < 0 then Failure(NegativeSeek)
    else Success(address)
  }

  /** A method result agrees with a specification result when both fail
      with the same error, or both succeed with the same value and the
      cursor stands where the specification says. */
  predicate Agrees<T(==)>(r: Result<T, Error>, spec: Result<Parsed<T>, Error>, pos: nat) {
    match spec
    case Success(p) => r == Success(p.value) && pos == p.after
    case Failure(e) => r == Failure(e)
  }

  class Cursor {
    const data: seq<byte>
    var pos: nat

    constructor (data: seq<byte>)
      ensures this.data == data && pos == 0
    {
      this.data := data;
      pos := 0;
    }

    /** `seek(offset, 0)`. */
    method Seek(offset: int) returns (r: Outcome<Error>)
      modifies this
      ensures r == Need(offset >= 0, NegativeSeek)
      ensures pos == if offset >= 0 then offset else old(pos)
    {
      if offset < 0 {
        return Fail(NegativeSeek);
      }
      pos := offset;
      return Pass;
    }

    /** `seek(delta, 1)`. */
    method SeekBy(delta: int) returns (r: Outcome<Error>)
      modifies this
      ensures r == Need(old(pos) + delta >= 0, NegativeSeek)
      ensures pos == if old(pos) + delta >= 0 then old(pos) + delta else old(pos)
    {
      if pos + delta < 0 {
        return Fail(NegativeSeek);
      }
      pos := pos + delta;
      return Pass;
    }

    /** Positions the cursor for a reader called with `address`. */
    method Start(address: int) returns (r: Result<nat, Error>)
      modifies this
      ensures r == StartAt(old(pos), address)
      ensures r.Success? ==> pos == r.value
    {
      if address != -1 {
        var ok := Seek(address);
        if ok.Fail? {
          return Failure(ok.error);
        }
      }
      return Success(pos);
    }

    /** `read(n)`. */
    method Read(n: int) returns (b: seq<byte>)
      requires n >= -1
      modifies this
      ensures BytesAt(data, old(pos), n) == Parsed(b, pos)
    {
      b := Chunk(data, pos, n);
      pos := pos + |b|;
    }

    /** `read(n)` of a computed size, which raises below -1. */
    method ReadBytes(n: int) returns (r: Result<seq<byte>, Error>)
      modifies this
      ensures Agrees(r, ReadBytesAt(data, old(pos), n), pos)
    {
      if n < -1 {
        return Failure(NegativeRead);
      }
      var b := Read(n);
      return Success(b);
    }

    method ReadUnpack(n: nat) returns (r: Result<nat, Error>)
      modifies this
      ensures Agrees(r, UnpackAt(data, old(pos), n), pos)
    {
      var b := Read(n);
      if |b| != n {
        return Failure(ShortRead);
      }
      return Success(LE(b));
    }

    method ReadFromBytes(n: nat) returns (x: nat)
      modifies this
      ensures FromBytesAt(data, old(pos), n) == Parsed(x, pos)
    {
      var b := Read(n);
      x := LE(b);
    }

    method ReadAscii(n: nat) returns (r: Result<string, Error>)
      modifies this
      ensures Agrees(r, AsciiAt(data, old(pos), n), pos)
    {
      var b := Read(n);
      if !IsAscii(b) {
        return Failure(NotAscii);
      }
      return Success(Chars(b));
    }

    method ReadLatin1(n: int) returns (s: string)
      requires n >= -1
      modifies this
      ensures Latin1At(data, old(pos), n) == Parsed(s, pos)
    {
      var b := Read(n);
      s := Chars(b);
    }
  }
}
