/** Header fields, as octet strings. */
module Headers {
  import opened Bits

  datatype Header = Header(name: seq<byte>, value: seq<byte>)

  /** The octets of an ASCII literal. */
  function Ascii(s: string): (r: seq<byte>)
    ensures |r| == |s|
  {
    seq(|s|, i requires 0 <= i < |s| => s[i] as int % 256)
  }
}
