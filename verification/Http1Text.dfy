/** Octet strings as HTTP/1.1 uses them: numbers, whitespace, case, and header lists. */
module Http1Text {
  import opened Bits
  import opened Wrappers
  import opened Headers

  type Text = seq<byte>

  const HT: byte := 9
  const LF: byte := 10
  const CR: byte := 13
  const SPACE: byte := 32
  const COLON: byte := 58
  const SEMICOLON: byte := 59

  const CRLF: Text := [CR, LF]

  // ---- Numbers --------------------------------------------------------------

  function Digit(d: nat): byte
    requires d < 16
  {
    if d < 10 then 48 + d else 87 + d
  }

  /** The value of a digit in base 10 or 16, in either case. */
  function DigitValue(b: byte, base: nat): Option<nat> {
    if 48 <= b <= 57 then Some(b - 48)
    else if base == 16 && 97 <= b <= 102 then Some(b - 87)
    else if base == 16 && 65 <= b <= 70 then Some(b - 55)
    else None
  }

  function HexText(n: nat): (t: Text)
    ensures t != []
  {
    if n < 16 then [Digit(n)] else HexText(n / 16) + [Digit(n % 16)]
  }

  function DecimalText(n: int): (t: Text)
    ensures t != []
    decreases if n < 0 then 1 - n else n
  {
    if n < 0 then [45] + DecimalText(-n)
    else if n < 10 then [Digit(n)]
    else DecimalText(n / 10) + [Digit(n % 10)]
  }

  /** A number, if every octet is a digit and there is at least one. */
  function Number(t: Text, base: nat): Option<nat> {
    if t == [] then None
    else
      match DigitValue(t[|t| - 1], base)
      case None => None
      case Some(d) =>
        if |t| == 1 then Some(d)
        else
          match Number(t[..|t| - 1], base)
          case None => None
          case Some(n) => Some(n * base + d)
  }

  const MAX_UINT64: nat := 0xffff_ffff_ffff_ffff

  /** Out-of-range numbers are refused like malformed ones. */
  function Number64(t: Text, base: nat): Option<nat> {
    match Number(t, base)
    case Some(n) => if n <= MAX_UINT64 then Some(n) else None
    case None => None
  }

  lemma {:induction false} HexComesBack(n: nat)
    ensures Number(HexText(n), 16) == Some(n)
    ensures forall b :: b in HexText(n) ==> 48 <= b <= 57 || 97 <= b <= 102
  {
    if n >= 16 {
      HexComesBack(n / 16);
      var t := HexText(n);
      assert t[..|t| - 1] == HexText(n / 16);
    }
  }

  lemma {:induction false} DecimalComesBack(n: nat)
    ensures Number(DecimalText(n), 10) == Some(n)
    ensures forall b :: b in DecimalText(n) ==> 48 <= b <= 57
    decreases n
  {
    if n >= 10 {
      DecimalComesBack(n / 10);
      var t := DecimalText(n);
      assert t[..|t| - 1] == DecimalText(n / 10);
    }
  }

  function Pow16(k: nat): nat {
    if k == 0 then 1 else 16 * Pow16(k - 1)
  }

  lemma {:induction false} HexIsShort(n: nat, k: nat)
    requires k > 0 && n < Pow16(k)
    ensures |HexText(n)| <= k
  {
    assert Pow16(0) == 1;
    if n >= 16 && k > 1 {
      HexIsShort(n / 16, k - 1);
    }
  }

  /** Sixteen digits are enough for a 64-bit size. */
  lemma HexOf64Bits(n: nat)
    requires n <= MAX_UINT64
    ensures |HexText(n)| <= 16
  {
    assert Pow16(4) == 0x1_0000 && Pow16(8) == 0x1_0000_0000;
    assert Pow16(12) == 0x1_0000_0000_0000 && Pow16(16) == MAX_UINT64 + 1;
    HexIsShort(n, 16);
  }

  // ---- Lines and words ------------------------------------------------------

  function Lower(b: byte): byte {
    if 65 <= b <= 90 then b + 32 else b
  }

  function ToLower(t: Text): (r: Text)
    ensures |r| == |t|
  {
    seq(|t|, i requires 0 <= i < |t| => Lower(t[i]))
  }

  predicate SameIgnoringCase(a: Text, b: Text) {
    ToLower(a) == ToLower(b)
  }

  predicate IsBlank(b: byte) {
    b == SPACE || b == HT
  }

  /** Without the spaces and tabs at either end. */
  function Trim(t: Text): Text {
    if t != [] && IsBlank(t[0]) then Trim(t[1..])
    else if t != [] && IsBlank(t[|t| - 1]) then Trim(t[..|t| - 1])
    else t
  }

  /** The first position of an octet, or the length. */
  function Find(t: Text, b: byte): (i: nat)
    ensures i <= |t| && (i < |t| ==> t[i] == b) && forall j :: 0 <= j < i ==> t[j] != b
  {
    if t == [] || t[0] == b then 0
    else
      var i := Find(t[1..], b);
      assert forall j :: 0 < j < 1 + i ==> t[j] == t[1..][j - 1];
      1 + i
  }

  predicate Contains(t: Text, word: Text) {
    word <= t || (t != [] && Contains(t[1..], word))
  }

  /** The value of the first header of that name, in whatever case; empty if there is none. */
  function HeaderValue(headers: seq<Header>, name: Text): Text {
    if headers == [] then []
    else if SameIgnoringCase(headers[0].name, name) then headers[0].value
    else HeaderValue(headers[1..], name)
  }

  // ---- The same, as the engine computes them --------------------------------

  method LowerCase(t: Text) returns (r: Text)
    ensures r == ToLower(t)
  {
    r := [];
    for i := 0 to |t|
      invariant r == ToLower(t[..i])
    {
      assert t[..i + 1] == t[..i] + [t[i]];
      r := r + [Lower(t[i])];
    }
    assert t[..|t|] == t;
  }

  lemma TrimFront(t: Text)
    requires t != [] && IsBlank(t[0])
    ensures Trim(t) == Trim(t[1..])
  {
  }

  lemma TrimBack(t: Text)
    requires t != [] && !IsBlank(t[0]) && IsBlank(t[|t| - 1])
    ensures Trim(t) == Trim(t[..|t| - 1])
  {
  }

  method TrimOws(t: Text) returns (r: Text)
    ensures r == Trim(t)
  {
    r := t;
    while r != [] && IsBlank(r[0])
      invariant Trim(r) == Trim(t)
      decreases |r|
    {
      TrimFront(r);
      r := r[1..];
    }
    while r != [] && IsBlank(r[|r| - 1])
      invariant Trim(r) == Trim(t) && (r != [] ==> !IsBlank(r[0]))
      decreases |r|
    {
      TrimBack(r);
      r := r[..|r| - 1];
    }
  }

  method IEquals(a: Text, b: Text) returns (same: bool)
    ensures same == SameIgnoringCase(a, b)
  {
    if |a| != |b| {
      assert |ToLower(a)| != |ToLower(b)|;
      return false;
    }
    for i := 0 to |a|
      invariant forall j :: 0 <= j < i ==> Lower(a[j]) == Lower(b[j])
    {
      if Lower(a[i]) != Lower(b[i]) {
        assert ToLower(a)[i] != ToLower(b)[i];
        return false;
      }
    }
    assert ToLower(a) == ToLower(b);
    return true;
  }

  method FindHeaderCi(headers: seq<Header>, name: Text) returns (value: Text)
    ensures value == HeaderValue(headers, name)
  {
    hide SameIgnoringCase;
    assert headers[0..] == headers;
    for i := 0 to |headers|
      invariant HeaderValue(headers[i..], name) == HeaderValue(headers, name)
    {
      var same := IEquals(headers[i].name, name);
      assert headers[i..][1..] == headers[i + 1..];
      if same {
        return headers[i].value;
      }
    }
    return [];
  }
}
