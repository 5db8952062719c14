/** What the HPACK decoder throws, one constructor per throw site kind. */
module HpackErrors {

  datatype HpackError =
    | Eof                // the input ends where a field must start
    | IntegerOverflow    // a continuation chunk would shift past 32 bits
    | IntegerLimit       // the integer exceeds the caller's limit
    | IncompleteInteger  // the input ends inside an integer
    | StringTooLong
    | IncompleteString
    | InvalidCode        // a bit with no branch in the Huffman tree
    | EosInString
    | InvalidPadding
    | IndexOutOfRange
}
