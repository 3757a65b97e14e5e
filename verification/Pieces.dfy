/** The bytes a vocabulary entry stands for. */
module Pieces {
  import opened Bits
  import opened Outcomes

  function Utf8Char(c: char): (r: seq<byte>)
    ensures 1 <= |r| <= 4
  {
    var code := c as int;
    if code < 0x80 then [code]
    else if code < 0x800 then [0xc0 + code / 0x40, 0x80 + code % 0x40]
    else if code < 0x1_0000 then [0xe0 + code / 0x1000, 0x80 + code / 0x40 % 0x40, 0x80 + code % 0x40]
    else [0xf0 + code / 0x4_0000 % 8, 0x80 + code / 0x1000 % 0x40, 0x80 + code / 0x40 % 0x40, 0x80 + code % 0x40]
  }

  function Utf8(s: string): (r: seq<byte>)
    ensures |r| >= |s|
  {
    if s == "" then [] else Utf8Char(s[0]) + Utf8(s[1..])
  }

  function HexDigit(c: char): (r: Option<nat>)
    ensures r.Some? ==> r.value < 16
  {
    if '0' <= c <= '9' then Some(c as int - '0' as int)
    else if 'a' <= c <= 'f' then Some(c as int - 'a' as int + 10)
    else if 'A' <= c <= 'F' then Some(c as int - 'A' as int + 10)
    else None
  }

  /** Two characters as a base-16 byte; like the standard parser, it takes a leading plus sign. */
  function FromHex(hex: string): Option<byte> {
    if |hex| != 2 || HexDigit(hex[1]).None? then None
    else if hex[0] == '+' then Some(HexDigit(hex[1]).value)
    else if HexDigit(hex[0]).None? then None
    else Some(16 * HexDigit(hex[0]).value + HexDigit(hex[1]).value)
  }

  /** A byte spelled as a byte fallback token, like <0x0A>. */
  function CanonicalByte(token: string): Option<byte> {
    if |token| < 4 || token[..3] != "<0x" || token[|token| - 1] != '>' then None
    else
      var hex := token[3..|token| - 1];
      if |Utf8(hex)| != 2 then None else FromHex(hex)
  }

  predicate Printable(code: nat) {
    33 <= code <= 126 || 161 <= code <= 172 || 174 <= code <= 255
  }

  /** The byte at or after b that is the (code - 256 - n)-th one without a printable form. */
  function HiddenByte(code: nat, b: nat, n: nat): Option<byte>
    requires b <= 256
    decreases 256 - b
  {
    if b == 256 then None
    else if Printable(b) then HiddenByte(code, b + 1, n)
    else if code == 256 + n then Some(b)
    else HiddenByte(code, b + 1, n + 1)
  }

  function Gpt2Byte(c: char): Option<byte> {
    if Printable(c as int) then Some(c as int) else HiddenByte(c as int, 0, 0)
  }

  function Gpt2Bytes(s: string): (r: Option<seq<byte>>)
    ensures r.Some? ==> |r.value| == |s|
  {
    if s == "" then Some([])
    else
      var first, rest := Gpt2Byte(s[0]), Gpt2Bytes(s[1..]);
      if first.None? || rest.None? then None else Some([first.value] + rest.value)
  }

  const WORD_START: char := '\U{2581}'

  /** Byte fallback tokens first, then the byte-level alphabet, then the word-start mark, then plain UTF-8. */
  function PieceBytes(token: string): (r: seq<byte>)
    ensures r == [] <==> token == ""
  {
    if CanonicalByte(token).Some? then [CanonicalByte(token).value]
    else if Gpt2Bytes(token).Some? then Gpt2Bytes(token).value
    else if token != "" && token[0] == WORD_START then [32] + Utf8(token[1..])
    else Utf8(token)
  }

  /** Where the first space is, if any. */
  function SpaceAt(s: string): (r: nat)
    ensures r <= |s| && (r < |s| ==> s[r] == ' ') && forall i :: 0 <= i < r ==> s[i] != ' '
  {
    if s == "" || s[0] == ' ' then 0 else 1 + SpaceAt(s[1..])
  }

  /** A merge rule is two non-empty parts around its only space. */
  function ParseMerge(merge: string): (r: Option<(string, string)>)
    ensures r.Some? ==> r.value.0 != "" && r.value.1 != "" && merge == r.value.0 + " " + r.value.1
  {
    var i := SpaceAt(merge);
    if i == 0 || i >= |merge| - 1 || SpaceAt(merge[i + 1..]) < |merge[i + 1..]| then None
    else
      Some((merge[..i], merge[i + 1..]))
  }

  predicate Emittable(mask: Option<seq<bool>>, idx: nat) {
    mask.None? || idx >= |mask.value| || mask.value[idx]
  }
}
