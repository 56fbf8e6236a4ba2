/** The exceptions the reader can raise, one constructor per Python exception
    kind the code paths reach. Every failure aborts the whole parse or
    extraction: none of them is caught. */
module Errors {

  datatype Error =
    /** `local_check_type` and `local_read_xdat`: an unexpected record tag;
        `location` is the byte offset of the offending 16-byte pointer. */
    | WrongType(expected: string, found: string, location: int)
    /** "<tag> not recognized": unknown TOC entry tag or volume record tag. */
    | NotRecognized(tag: string)
    /** "Unknown DEF type". */
    | UnknownDef(tag: string)
    /** `struct.error`: `struct.unpack` was given fewer bytes than its format needs. */
    | ShortRead
    /** `UnicodeDecodeError` from an ASCII decode of a byte >= 128. */
    | NotAscii
    /** `ValueError`/`OSError` from a seek to a negative position. */
    | NegativeSeek
    /** `ValueError` from `read(n)` on a binary file with `n < -1`: only -1
        means "to the end". */
    | NegativeRead
    /** `KeyError`: a dictionary entry that this layout or file does not have. */
    | MissingKey(key: string)
    /** `IndexError`: a list or array index out of range. */
    | BadIndex
    /** numpy `ValueError`: reshape, stacking, buffer sizes or array dimensions that do not fit. */
    | BadShape
    /** `NameError`: a local variable read before any assignment. */
    | Unbound(name: string)
    /** `ValueError` from `list.index`: the name is not in the list. */
    | NotInList(name: string)
    /** `AttributeError`/`TypeError`: the value is not of the kind the code expects. */
    | WrongKind
}
